/** What a migration of the whole schedule store means to the runs that later resolve it. */
module MigrationMeaning {

  import opened Collections
  import opened VaultRefs
  import opened VaultMigration

  /** The stored schedules, by id. */
  class ScheduleDisk {
    var configs: map<string, Config>

    method Save(id: string, cfg: Config, succeeds: bool)
      modifies this
      ensures configs == if succeeds then old(configs)[id := cfg] else old(configs)
    {
      if succeeds {
        configs := configs[id := cfg];
      }
    }
  }

  ghost predicate Listed(listing: seq<string>, configs: map<string, Config>) {
    && (forall i :: 0 <= i < |listing| ==> listing[i] in configs)
    && (forall i, j :: 0 <= i < j < |listing| ==> listing[i] != listing[j])
  }

  /** A schedule is rewritten when something in it moved and the file could be saved. */
  function Rewritten(id: string, cfg: Config, unsaved: set<string>): Config {
    if Plains(ConfigCells(id, cfg)) != [] && id !in unsaved then MovedConfig(id, cfg) else cfg
  }

  /** Migrates every listed schedule, then saves the vault if anything moved; `unsaved` are the ids whose file
      cannot be rewritten. */
  method Apply(v: Vault, disk: ScheduleDisk, listing: seq<string>, unsaved: set<string>, vaultSaves: bool)
    returns (migrated: nat, failed: seq<string>)
    requires Listed(listing, disk.configs)
    modifies v, disk
    ensures v.secrets == Stored(old(v.secrets), AllCells(listing, old(disk.configs)))
    ensures v.file == if migrated > 0 && vaultSaves then v.secrets else old(v.file)
    ensures migrated == |Plains(AllCells(listing, old(disk.configs)))|
    ensures disk.configs.Keys == old(disk.configs).Keys
    ensures forall id :: id in disk.configs ==>
              disk.configs[id] == if id in listing then Rewritten(id, old(disk.configs)[id], unsaved)
                                  else old(disk.configs)[id]
    ensures forall id :: id in failed <==> id in listing && id in unsaved && Plains(ConfigCells(id, old(disk.configs)[id])) != []
  {
    hide Plains, Stored, ConfigCells, MovedConfig, AllCells, ConfigReplaced, Rewritten;
    ghost var configs := disk.configs;
    migrated, failed := 0, [];
    NoSchedules(v.secrets, configs);
    for n := 0 to |listing|
      invariant v.secrets == Stored(old(v.secrets), AllCells(listing[..n], configs)) && v.file == old(v.file)
      invariant migrated == |Plains(AllCells(listing[..n], configs))|
      invariant disk.configs.Keys == configs.Keys
      invariant forall id :: id in disk.configs ==>
                  disk.configs[id] == if id in listing[..n] then Rewritten(id, configs[id], unsaved) else configs[id]
      invariant forall id :: id in failed <==> id in listing[..n] && id in unsaved && Plains(ConfigCells(id, configs[id])) != []
    {
      var id := listing[n];
      AddSchedule(old(v.secrets), listing, configs, n);
      RewrittenMeans(id, configs[id], unsaved);
      assert id !in listing[..n];
      var before := migrated;
      var cfg, total := MigrateConfig(id, disk.configs[id], v, migrated);
      migrated := total;
      if migrated != before {
        disk.Save(id, cfg, id !in unsaved);
        if id in unsaved {
          failed := failed + [id];
        }
      }
      assert listing[..n + 1] == listing[..n] + [id];
    }
    assert listing[..|listing|] == listing;
    if migrated > 0 {
      v.Save(vaultSaves);
    }
  }

  lemma RewrittenMeans(id: string, cfg: Config, unsaved: set<string>)
    ensures Rewritten(id, cfg, unsaved)
            == if |Plains(ConfigCells(id, cfg))| > 0 && id !in unsaved then MovedConfig(id, cfg) else cfg
  {
  }

  lemma NoSchedules(secrets: map<string, string>, configs: map<string, Config>)
    ensures Stored(secrets, AllCells([], configs)) == secrets && Plains(AllCells([], configs)) == []
  {
  }

  lemma AddSchedule(secrets: map<string, string>, listing: seq<string>, configs: map<string, Config>, n: nat)
    requires n < |listing| && forall i :: 0 <= i < |listing| ==> listing[i] in configs
    ensures var before, cells := AllCells(listing[..n], configs), ConfigCells(listing[n], configs[listing[n]]);
            && AllCells(listing[..n + 1], configs) == before + cells
            && Stored(secrets, before + cells) == Stored(Stored(secrets, before), cells)
            && Plains(before + cells) == Plains(before) + Plains(cells)
  {
    assert listing[..n + 1][..n] == listing[..n];
    StoredInTwo(secrets, AllCells(listing[..n], configs), ConfigCells(listing[n], configs[listing[n]]));
  }

  // ---------------------------------------------------------------- cell by cell

  ghost predicate Agrees(c: Cell, before: map<string, string>, after: map<string, string>) {
    Resolved(Moved(c.key, c.value), after) == Resolved(c.value, before)
  }

  ghost predicate AllAgree(cells: seq<Cell>, before: map<string, string>, after: map<string, string>) {
    forall c :: c in cells ==> Agrees(c, before, after)
  }

  ghost predicate Keyed(cells: seq<Cell>) {
    forall c :: c in cells ==> ':' in c.key
  }

  /** Plaintext credentials that share a key are equal. */
  ghost predicate SharedKeysAgree(cells: seq<Cell>) {
    forall c, d :: c in cells && d in cells && Plain(c.value) && Plain(d.value) && c.key == d.key ==> c.value == d.value
  }

  /** A marker already naming a key about to be written resolves already to what will be written. */
  ghost predicate OldRefsAgree(cells: seq<Cell>, secrets: map<string, string>) {
    forall c, d :: c in cells && d in cells && IsRef(c.value) && Plain(d.value) && RefKey(c.value) == d.key ==>
                     d.key in secrets && secrets[d.key] == d.value
  }

  ghost predicate Writes(cells: seq<Cell>, key: string) {
    exists c :: c in cells && Plain(c.value) && c.key == key
  }

  /** A key in the vault afterwards holds one of the values written to it, or what it held before. */
  lemma {:induction false} StoredMeaning(secrets: map<string, string>, cells: seq<Cell>, key: string)
    ensures Writes(cells, key) ==>
              && key in Stored(secrets, cells)
              && exists c :: c in cells && Plain(c.value) && c.key == key && Stored(secrets, cells)[key] == c.value
    ensures !Writes(cells, key) ==>
              && (key in Stored(secrets, cells) <==> key in secrets)
              && (key in secrets ==> Stored(secrets, cells)[key] == secrets[key])
  {
    if cells != [] {
      var init, last := cells[..|cells| - 1], cells[|cells| - 1];
      assert cells == init + [last];
      StoredMeaning(secrets, init, key);
      if Writes(init, key) {
        var c :| c in init && Plain(c.value) && c.key == key && Stored(secrets, init)[key] == c.value;
        assert c in cells;
      }
    }
  }

  lemma CellAgreesIff(cells: seq<Cell>, secrets: map<string, string>, c: Cell)
    requires c in cells && Keyed(cells) && SharedKeysAgree(cells) && OldRefsAgree(cells, secrets)
    ensures Agrees(c, secrets, Stored(secrets, cells))
  {
    var after := Stored(secrets, cells);
    if Plain(c.value) {
      MarkerLeadsBack(c.key);
      StoredMeaning(secrets, cells, c.key);
    } else if IsRef(c.value) {
      StoredMeaning(secrets, cells, RefKey(c.value));
    }
  }

  lemma AgreeingCellsDoNotClash(cells: seq<Cell>, secrets: map<string, string>)
    requires Keyed(cells) && AllAgree(cells, secrets, Stored(secrets, cells))
    ensures SharedKeysAgree(cells) && OldRefsAgree(cells, secrets)
  {
    var after := Stored(secrets, cells);
    forall c | c in cells && Plain(c.value) ensures c.key in after && after[c.key] == c.value {
      assert Agrees(c, secrets, after);
      MarkerLeadsBack(c.key);
      StoredMeaning(secrets, cells, c.key);
    }
    forall c, d | c in cells && d in cells && IsRef(c.value) && Plain(d.value) && RefKey(c.value) == d.key
      ensures d.key in secrets && secrets[d.key] == d.value
    {
      assert Agrees(c, secrets, after);
    }
  }

  lemma CellsAgreeIff(cells: seq<Cell>, secrets: map<string, string>)
    requires Keyed(cells)
    ensures AllAgree(cells, secrets, Stored(secrets, cells)) <==> SharedKeysAgree(cells) && OldRefsAgree(cells, secrets)
  {
    if SharedKeysAgree(cells) && OldRefsAgree(cells, secrets) {
      forall c | c in cells ensures Agrees(c, secrets, Stored(secrets, cells)) {
        CellAgreesIff(cells, secrets, c);
      }
    }
    if AllAgree(cells, secrets, Stored(secrets, cells)) {
      AgreeingCellsDoNotClash(cells, secrets);
    }
  }

  // ---------------------------------------------------------------- schedule by schedule

  lemma {:induction false} InRowCells(id: string, kind: string, rows: seq<Row>, c: Cell)
    ensures c in RowCells(id, kind, rows) <==>
            exists i :: 0 <= i < |rows| && |rows[i]| >= 2 && c == RowCell(id, kind, rows[i])
  {
    if rows != [] {
      var init := rows[..|rows| - 1];
      InRowCells(id, kind, init, c);
      if c in RowCells(id, kind, init) {
        var i :| 0 <= i < |init| && |init[i]| >= 2 && c == RowCell(id, kind, init[i]);
        assert rows[i] == init[i];
      }
      if i :| 0 <= i < |rows| && |rows[i]| >= 2 && c == RowCell(id, kind, rows[i]) {
        if i < |init| {
          assert init[i] == rows[i];
        }
      }
    }
  }

  lemma CsvAgreesIff(id: string, kind: string, body: Csv, before: map<string, string>, after: map<string, string>)
    ensures ResolvedCsv(MovedCsv(id, kind, body), after) == ResolvedCsv(body, before)
            <==> AllAgree(RowCells(id, kind, body.rows), before, after)
  {
    var cells := RowCells(id, kind, body.rows);
    var a, b := ResolvedCsv(MovedCsv(id, kind, body), after), ResolvedCsv(body, before);
    if AllAgree(cells, before, after) {
      forall i | 0 <= i < |body.rows| ensures a.rows[i] == b.rows[i] {
        RowAgrees(id, kind, body, before, after, i);
      }
    }
    if a == b {
      forall c | c in cells ensures Agrees(c, before, after) {
        InRowCells(id, kind, body.rows, c);
        var i :| 0 <= i < |body.rows| && |body.rows[i]| >= 2 && c == RowCell(id, kind, body.rows[i]);
        assert a.rows[i][1] == b.rows[i][1];
      }
    }
  }

  lemma RowAgrees(id: string, kind: string, body: Csv, before: map<string, string>, after: map<string, string>, i: nat)
    requires i < |body.rows| && AllAgree(RowCells(id, kind, body.rows), before, after)
    ensures ResolvedRow(MovedRow(id, kind, body.rows[i]), after) == ResolvedRow(body.rows[i], before)
  {
    var row := body.rows[i];
    if |row| >= 2 {
      InRowCells(id, kind, body.rows, RowCell(id, kind, row));
      assert Agrees(RowCell(id, kind, row), before, after);
    }
  }

  lemma AgreeParts(a: seq<Cell>, b: seq<Cell>, before: map<string, string>, after: map<string, string>)
    ensures AllAgree(a + b, before, after) <==> AllAgree(a, before, after) && AllAgree(b, before, after)
  {
  }

  lemma ScalarsAgreeIff(id: string, cfg: Config, before: map<string, string>, after: map<string, string>)
    ensures var r, s := ResolvedConfig(MovedConfig(id, cfg), after), ResolvedConfig(cfg, before);
            && r.targetPassword == s.targetPassword && r.privateKey == s.privateKey && r.passphrase == s.passphrase
            && r.bastionPass == s.bastionPass && r.bastionKey == s.bastionKey && r.bastionPassphrase == s.bastionPassphrase
            <==> AllAgree(ScalarCells(id, cfg), before, after)
  {
    hide Moved, Resolved, KeyOf;
    var cells := ScalarCells(id, cfg);
    assert AllAgree(cells, before, after) ==> forall i :: 0 <= i < 6 ==> Agrees(cells[i], before, after);
    assert cells[0] in cells && cells[1] in cells && cells[2] in cells && cells[3] in cells && cells[4] in cells && cells[5] in cells;
  }

  lemma ConfigAgreesIff(id: string, cfg: Config, before: map<string, string>, after: map<string, string>)
    ensures ResolvedConfig(MovedConfig(id, cfg), after) == ResolvedConfig(cfg, before)
            <==> AllAgree(ConfigCells(id, cfg), before, after)
    ensures ConfigMeant(cfg, before, ResolvedConfig(MovedConfig(id, cfg), after))
            <==> AllAgree(ConfigCells(id, cfg), before, after)
  {
    ResolvedConfigIsMeant(cfg, before, ResolvedConfig(MovedConfig(id, cfg), after));
    hide ConfigMeant;
    hide Moved, Resolved, RowCells, ScalarCells, MovedCsv, ResolvedCsv, AllAgree;
    ScalarsAgreeIff(id, cfg, before, after);
    CsvAgreesIff(id, NORMAL, cfg.normalUsers, before, after);
    CsvAgreesIff(id, LARGE, cfg.largeUsers, before, after);
    CsvAgreesIff(id, DOWNLOAD, cfg.downloadUsers, before, after);
    var s, r0, r1, r2 := ScalarCells(id, cfg), RowCells(id, NORMAL, cfg.normalUsers.rows),
                         RowCells(id, LARGE, cfg.largeUsers.rows), RowCells(id, DOWNLOAD, cfg.downloadUsers.rows);
    AgreeParts(s, r0, before, after);
    AgreeParts(s + r0, r1, before, after);
    AgreeParts(s + r0 + r1, r2, before, after);
  }

  /** A schedule left as it was still resolves as before, if its markers do. */
  lemma UnmovedAgrees(id: string, cfg: Config, before: map<string, string>, after: map<string, string>)
    requires AllAgree(ConfigCells(id, cfg), before, after)
    ensures ResolvedConfig(cfg, after) == ResolvedConfig(cfg, before)
  {
    hide Moved, KeyOf, MovedCsv, ResolvedCsv, RowCells, MovedRow, Resolved;
    var cells := ConfigCells(id, cfg);
    forall c | c in cells ensures Resolved(c.value, after) == Resolved(c.value, before) {
      UnmovedCell(c, before, after);
    }
    var scalars := ScalarCells(id, cfg);
    forall i | 0 <= i < 6 ensures Resolved(scalars[i].value, after) == Resolved(scalars[i].value, before) {
      assert scalars[i] in cells;
    }
    assert scalars[0].value == cfg.targetPassword && scalars[1].value == cfg.privateKey && scalars[2].value == cfg.passphrase;
    assert scalars[3].value == cfg.bastionPass && scalars[4].value == cfg.bastionKey && scalars[5].value == cfg.bastionPassphrase;
    UnmovedCsv(id, NORMAL, cfg.normalUsers, before, after);
    UnmovedCsv(id, LARGE, cfg.largeUsers, before, after);
    UnmovedCsv(id, DOWNLOAD, cfg.downloadUsers, before, after);
  }

  lemma UnmovedCell(c: Cell, before: map<string, string>, after: map<string, string>)
    requires Agrees(c, before, after)
    ensures Resolved(c.value, after) == Resolved(c.value, before)
  {
  }

  lemma UnmovedCsv(id: string, kind: string, body: Csv, before: map<string, string>, after: map<string, string>)
    requires forall c :: c in RowCells(id, kind, body.rows) ==> Resolved(c.value, after) == Resolved(c.value, before)
    ensures ResolvedCsv(body, after) == ResolvedCsv(body, before)
  {
    hide Resolved;
    forall i | 0 <= i < |body.rows| ensures ResolvedRow(body.rows[i], after) == ResolvedRow(body.rows[i], before) {
      if |body.rows[i]| >= 2 {
        InRowCells(id, kind, body.rows, RowCell(id, kind, body.rows[i]));
      }
    }
  }

  lemma {:induction false} PlainsMeaning(cells: seq<Cell>)
    ensures Plains(cells) == [] <==> forall c :: c in cells ==> !Plain(c.value)
  {
    if cells != [] {
      var init, last := cells[..|cells| - 1], cells[|cells| - 1];
      assert cells == init + [last];
      PlainsMeaning(init);
    }
  }

  lemma RewrittenAgreesIff(id: string, cfg: Config, before: map<string, string>, after: map<string, string>,
                           unsaved: set<string>)
    ensures AllAgree(ConfigCells(id, cfg), before, after) ==>
              ResolvedConfig(Rewritten(id, cfg, unsaved), after) == ResolvedConfig(cfg, before)
    ensures id !in unsaved ==>
              (ResolvedConfig(Rewritten(id, cfg, unsaved), after) == ResolvedConfig(cfg, before)
               <==> AllAgree(ConfigCells(id, cfg), before, after))
  {
    hide MovedConfig, ResolvedConfig, ConfigCells, Plains, Resolved;
    ConfigAgreesIff(id, cfg, before, after);
    if AllAgree(ConfigCells(id, cfg), before, after) {
      UnmovedAgrees(id, cfg, before, after);
    }
    PlainsMeaning(ConfigCells(id, cfg));
    if Plains(ConfigCells(id, cfg)) == [] {
      ConfigAgreesIff(id, cfg, after, after);
      assert AllAgree(ConfigCells(id, cfg), after, after);
    }
  }

  // ---------------------------------------------------------------- the whole store

  ghost predicate InConfig(listing: seq<string>, configs: map<string, Config>, i: int, c: Cell) {
    0 <= i < |listing| && listing[i] in configs && c in ConfigCells(listing[i], configs[listing[i]])
  }

  lemma {:induction false} InAllCells(listing: seq<string>, configs: map<string, Config>, c: Cell)
    requires forall i :: 0 <= i < |listing| ==> listing[i] in configs
    ensures c in AllCells(listing, configs) <==> exists i :: InConfig(listing, configs, i, c)
  {
    hide ConfigCells;
    if listing != [] {
      var init, last := listing[..|listing| - 1], listing[|listing| - 1];
      InAllCells(init, configs, c);
      if i :| InConfig(init, configs, i, c) {
        assert InConfig(listing, configs, i, c);
      }
      if c in ConfigCells(last, configs[last]) {
        assert InConfig(listing, configs, |listing| - 1, c);
      }
      if i :| InConfig(listing, configs, i, c) && i < |init| {
        assert InConfig(init, configs, i, c);
      }
    }
  }

  lemma {:induction false} RowCellsKeyed(id: string, kind: string, rows: seq<Row>)
    ensures Keyed(RowCells(id, kind, rows))
  {
    if rows != [] {
      RowCellsKeyed(id, kind, rows[..|rows| - 1]);
      KeysAreSettable(id);
    }
  }

  lemma ConfigCellsKeyed(id: string, cfg: Config)
    ensures Keyed(ConfigCells(id, cfg))
  {
    hide KeyOf, RowCells;
    KeysAreSettable(id);
    assert Keyed(ScalarCells(id, cfg));
    RowCellsKeyed(id, NORMAL, cfg.normalUsers.rows);
    RowCellsKeyed(id, LARGE, cfg.largeUsers.rows);
    RowCellsKeyed(id, DOWNLOAD, cfg.downloadUsers.rows);
  }

  lemma AllCellsKeyed(listing: seq<string>, configs: map<string, Config>)
    requires Listed(listing, configs)
    ensures Keyed(AllCells(listing, configs))
  {
    hide ConfigCells;
    forall c | c in AllCells(listing, configs) ensures ':' in c.key {
      InAllCells(listing, configs, c);
      var i :| InConfig(listing, configs, i, c);
      ConfigCellsKeyed(listing[i], configs[listing[i]]);
    }
  }

  lemma AllAgreeByConfig(listing: seq<string>, configs: map<string, Config>, before: map<string, string>, after: map<string, string>)
    requires Listed(listing, configs)
    ensures AllAgree(AllCells(listing, configs), before, after)
            <==> forall id :: id in listing ==> AllAgree(ConfigCells(id, configs[id]), before, after)
  {
    hide ConfigCells, Agrees;
    var cells := AllCells(listing, configs);
    forall id, c | AllAgree(cells, before, after) && id in listing && c in ConfigCells(id, configs[id])
      ensures Agrees(c, before, after)
    {
      var i :| 0 <= i < |listing| && listing[i] == id;
      assert InConfig(listing, configs, i, c);
      InAllCells(listing, configs, c);
    }
    forall c | c in cells && forall id :: id in listing ==> AllAgree(ConfigCells(id, configs[id]), before, after)
      ensures Agrees(c, before, after)
    {
      InAllCells(listing, configs, c);
      var i :| InConfig(listing, configs, i, c);
      assert listing[i] in listing;
    }
  }

  ghost predicate MeansTheSame(listing: seq<string>, configs: map<string, Config>, secrets: map<string, string>,
                               unsaved: set<string>)
    requires Listed(listing, configs)
  {
    forall id :: id in listing ==>
                   ConfigMeant(configs[id], secrets,
                               ResolvedConfig(Rewritten(id, configs[id], unsaved), Stored(secrets, AllCells(listing, configs))))
  }

  /** After a migration every schedule gives a run, field by field and row by row, the plaintexts it held and
      what its markers led to before, exactly when no two different plaintexts share a key and no existing marker names a freshly written
      key unless it already led to that very value. It does so whichever rewrites failed to save. */
  lemma MigrationKeepsMeaningIff(listing: seq<string>, configs: map<string, Config>, secrets: map<string, string>,
                                 unsaved: set<string>)
    requires Listed(listing, configs)
    ensures SharedKeysAgree(AllCells(listing, configs)) && OldRefsAgree(AllCells(listing, configs), secrets)
            ==> MeansTheSame(listing, configs, secrets, unsaved)
    ensures unsaved == {} ==>
              (MeansTheSame(listing, configs, secrets, unsaved)
               <==> SharedKeysAgree(AllCells(listing, configs)) && OldRefsAgree(AllCells(listing, configs), secrets))
  {
    hide ConfigCells, Agrees, AllCells, Stored, SharedKeysAgree, OldRefsAgree, ResolvedConfig, Rewritten, AllAgree, ConfigMeant;
    var cells := AllCells(listing, configs);
    var after := Stored(secrets, cells);
    AllCellsKeyed(listing, configs);
    CellsAgreeIff(cells, secrets);
    AllAgreeByConfig(listing, configs, secrets, after);
    forall id | id in listing
      ensures AllAgree(ConfigCells(id, configs[id]), secrets, after) ==>
                ConfigMeant(configs[id], secrets, ResolvedConfig(Rewritten(id, configs[id], unsaved), after))
      ensures unsaved == {} && ConfigMeant(configs[id], secrets, ResolvedConfig(Rewritten(id, configs[id], unsaved), after))
              ==> AllAgree(ConfigCells(id, configs[id]), secrets, after)
    {
      RewrittenAgreesIff(id, configs[id], secrets, after, unsaved);
      ResolvedConfigIsMeant(configs[id], secrets, ResolvedConfig(Rewritten(id, configs[id], unsaved), after));
    }
  }

  // ---------------------------------------------------------------- when keys are shared

  lemma KeyNamesSchedule(id: string, field: string, id2: string, field2: string)
    requires '/' !in id && '/' !in id2 && KeyOf(id, field) == KeyOf(id2, field2)
    ensures id == id2 && field == field2
  {
    assert KeyOf(id, field)[9..] == id + "/" + field;
    assert KeyOf(id2, field2)[9..] == id2 + "/" + field2;
    FirstSplit(id, field, id2, field2, '/');
  }

  predicate IsKind(kind: string) {
    kind == NORMAL || kind == LARGE || kind == DOWNLOAD
  }

  const SCALARS := ["target_password", "private_key_pem", "private_key_passphrase",
                    "bastion_pass", "bastion_private_key_pem", "bastion_passphrase"]

  lemma ScalarNames()
    ensures |SCALARS| == 6
    ensures forall k :: 0 <= k < 6 ==> '.' !in SCALARS[k]
    ensures forall k, m :: 0 <= k < m < 6 ==> SCALARS[k] != SCALARS[m]
  {
    assert |SCALARS[0]| == 15 && |SCALARS[1]| == 15 && |SCALARS[2]| == 22;
    assert |SCALARS[3]| == 12 && |SCALARS[4]| == 23 && |SCALARS[5]| == 18;
    assert SCALARS[0][0] == 't' && SCALARS[1][0] == 'p';
  }

  ghost predicate ScalarAt(cfg: Config, c: Cell, id: string, k: int) {
    0 <= k < 6 && c == ScalarCells(id, cfg)[k] && c.key == KeyOf(id, SCALARS[k])
  }

  ghost predicate UserAt(cfg: Config, c: Cell, id: string, kind: string, i: int) {
    && IsKind(kind) && 0 <= i < |BodyOf(cfg, kind).rows| && |BodyOf(cfg, kind).rows[i]| >= 2
    && c == RowCell(id, kind, BodyOf(cfg, kind).rows[i])
  }

  /** Two rows of one user list with the same user and plaintext passwords have the same password. */
  ghost predicate UsersAgree(rows: seq<Row>) {
    forall i, j :: !RepeatedUser(rows, i, j)
  }

  ghost predicate RepeatedUser(rows: seq<Row>, i: int, j: int) {
    && 0 <= i < |rows| && 0 <= j < |rows| && |rows[i]| >= 2 && |rows[j]| >= 2
    && rows[i][0] == rows[j][0] && Plain(rows[i][1]) && Plain(rows[j][1])
    && rows[i][1] != rows[j][1]
  }

  lemma KindsDiffer()
    ensures NORMAL != LARGE && LARGE != DOWNLOAD && NORMAL != DOWNLOAD
    ensures forall kind :: IsKind(kind) ==> '.' !in kind
  {
  }

  lemma Origin(id: string, cfg: Config, c: Cell)
    requires c in ConfigCells(id, cfg)
    ensures (exists k :: ScalarAt(cfg, c, id, k)) || (exists kind, i :: UserAt(cfg, c, id, kind, i))
  {
    hide KeyOf, RowCells, RowCell;
    KindsDiffer();
    if c in ScalarCells(id, cfg) {
      ScalarOrigin(id, cfg, c);
    } else if c in RowCells(id, NORMAL, cfg.normalUsers.rows) {
      InRowCells(id, NORMAL, cfg.normalUsers.rows, c);
      var i :| 0 <= i < |cfg.normalUsers.rows| && |cfg.normalUsers.rows[i]| >= 2 && c == RowCell(id, NORMAL, cfg.normalUsers.rows[i]);
      assert UserAt(cfg, c, id, NORMAL, i);
    } else if c in RowCells(id, LARGE, cfg.largeUsers.rows) {
      InRowCells(id, LARGE, cfg.largeUsers.rows, c);
      var i :| 0 <= i < |cfg.largeUsers.rows| && |cfg.largeUsers.rows[i]| >= 2 && c == RowCell(id, LARGE, cfg.largeUsers.rows[i]);
      assert UserAt(cfg, c, id, LARGE, i);
    } else {
      InRowCells(id, DOWNLOAD, cfg.downloadUsers.rows, c);
      var i :| 0 <= i < |cfg.downloadUsers.rows| && |cfg.downloadUsers.rows[i]| >= 2 && c == RowCell(id, DOWNLOAD, cfg.downloadUsers.rows[i]);
      assert UserAt(cfg, c, id, DOWNLOAD, i);
    }
  }

  lemma ScalarOrigin(id: string, cfg: Config, c: Cell)
    requires c in ScalarCells(id, cfg)
    ensures exists k :: ScalarAt(cfg, c, id, k)
  {
    hide KeyOf;
    var k :| 0 <= k < 6 && c == ScalarCells(id, cfg)[k];
    assert ScalarAt(cfg, c, id, k);
  }

  lemma UserCellListed(id: string, cfg: Config, c: Cell, kind: string, i: int)
    requires UserAt(cfg, c, id, kind, i)
    ensures c in ConfigCells(id, cfg)
  {
    hide KeyOf, RowCells, RowCell, ScalarCells;
    KindsDiffer();
    InRowCells(id, kind, BodyOf(cfg, kind).rows, c);
  }

  lemma DotInUserField(kind: string, user: string)
    ensures '.' in UserField(kind, user)
  {
  }

  /** Two cells of one schedule under one key have one origin: the same scalar, or the same user of
      the same list. */
  lemma SameKeySameValue(id: string, cfg: Config, c: Cell, d: Cell)
    requires '/' !in id && c in ConfigCells(id, cfg) && d in ConfigCells(id, cfg) && c.key == d.key
    requires Plain(c.value) && Plain(d.value)
    requires forall kind :: IsKind(kind) ==> UsersAgree(BodyOf(cfg, kind).rows)
    ensures c.value == d.value
  {
    hide KeyOf, ConfigCells, BodyOf;
    Origin(id, cfg, c);
    Origin(id, cfg, d);
    KindsDiffer();
    ScalarNames();
    if f :| ScalarAt(cfg, c, id, f) {
      if g :| ScalarAt(cfg, d, id, g) {
        KeyNamesSchedule(id, SCALARS[f], id, SCALARS[g]);
      } else {
        var kind, i :| UserAt(cfg, d, id, kind, i);
        DotInUserField(kind, BodyOf(cfg, kind).rows[i][0]);
        KeyNamesSchedule(id, SCALARS[f], id, UserField(kind, BodyOf(cfg, kind).rows[i][0]));
      }
    } else {
      var kind, i :| UserAt(cfg, c, id, kind, i);
      var user := BodyOf(cfg, kind).rows[i][0];
      if g :| ScalarAt(cfg, d, id, g) {
        DotInUserField(kind, user);
        KeyNamesSchedule(id, SCALARS[g], id, UserField(kind, user));
      } else {
        var kind2, j :| UserAt(cfg, d, id, kind2, j);
        var user2 := BodyOf(cfg, kind2).rows[j][0];
        KeyNamesSchedule(id, UserField(kind, user), id, UserField(kind2, user2));
        FirstSplit(kind, user, kind2, user2, '.');
        assert !RepeatedUser(BodyOf(cfg, kind).rows, i, j);
      }
    }
  }

  lemma KeyNamesItsSchedule(id: string, cfg: Config, c: Cell, id2: string, cfg2: Config, d: Cell)
    requires '/' !in id && '/' !in id2 && c in ConfigCells(id, cfg) && d in ConfigCells(id2, cfg2) && c.key == d.key
    ensures id == id2
  {
    hide KeyOf, ConfigCells, BodyOf;
    Origin(id, cfg, c);
    Origin(id2, cfg2, d);
    var f, g;
    if x :| ScalarAt(cfg, c, id, x) {
      f := SCALARS[x];
    } else {
      var kind, i :| UserAt(cfg, c, id, kind, i);
      f := UserField(kind, BodyOf(cfg, kind).rows[i][0]);
    }
    if x :| ScalarAt(cfg2, d, id2, x) {
      g := SCALARS[x];
    } else {
      var kind, i :| UserAt(cfg2, d, id2, kind, i);
      g := UserField(kind, BodyOf(cfg2, kind).rows[i][0]);
    }
    KeyNamesSchedule(id, f, id2, g);
  }

  ghost predicate AllUsersAgree(listing: seq<string>, configs: map<string, Config>)
    requires Listed(listing, configs)
  {
    forall id, kind :: id in listing && IsKind(kind) ==> UsersAgree(BodyOf(configs[id], kind).rows)
  }

  /** With slash-free ids, keys clash only inside one user list, where one user is given two
      different plaintext passwords. */
  lemma SharedKeysAgreeIff(listing: seq<string>, configs: map<string, Config>)
    requires Listed(listing, configs) && forall id :: id in listing ==> '/' !in id
    ensures SharedKeysAgree(AllCells(listing, configs)) <==> AllUsersAgree(listing, configs)
  {
    hide ConfigCells, KeyOf, AllCells, BodyOf;
    var cells := AllCells(listing, configs);
    if AllUsersAgree(listing, configs) {
      forall c, d | c in cells && d in cells && Plain(c.value) && Plain(d.value) && c.key == d.key
        ensures c.value == d.value
      {
        InAllCells(listing, configs, c);
        InAllCells(listing, configs, d);
        var i :| InConfig(listing, configs, i, c);
        var j :| InConfig(listing, configs, j, d);
        KeyNamesItsSchedule(listing[i], configs[listing[i]], c, listing[j], configs[listing[j]], d);
        SameKeySameValue(listing[i], configs[listing[i]], c, d);
      }
    }
    if SharedKeysAgree(cells) {
      forall id, kind | id in listing && IsKind(kind) ensures UsersAgree(BodyOf(configs[id], kind).rows) {
        UsersAgreeIn(listing, configs, id, kind);
      }
    }
  }

  lemma UsersAgreeIn(listing: seq<string>, configs: map<string, Config>, id: string, kind: string)
    requires Listed(listing, configs) && SharedKeysAgree(AllCells(listing, configs)) && id in listing && IsKind(kind)
    ensures UsersAgree(BodyOf(configs[id], kind).rows)
  {
    hide ConfigCells, KeyOf, AllCells, BodyOf;
    var rows := BodyOf(configs[id], kind).rows;
    var n :| 0 <= n < |listing| && listing[n] == id;
    forall i, j ensures !RepeatedUser(rows, i, j) {
      if 0 <= i < |rows| && 0 <= j < |rows| && |rows[i]| >= 2 && |rows[j]| >= 2 {
        RowsShareKey(listing, configs, n, kind, i, j);
      }
    }
  }

  lemma RowsShareKey(listing: seq<string>, configs: map<string, Config>, n: nat, kind: string, i: int, j: int)
    requires Listed(listing, configs) && SharedKeysAgree(AllCells(listing, configs)) && n < |listing| && IsKind(kind)
    requires var rows := BodyOf(configs[listing[n]], kind).rows;
             0 <= i < |rows| && 0 <= j < |rows| && |rows[i]| >= 2 && |rows[j]| >= 2
    ensures !RepeatedUser(BodyOf(configs[listing[n]], kind).rows, i, j)
  {
    hide ConfigCells, KeyOf, AllCells, BodyOf;
    var id := listing[n];
    var rows := BodyOf(configs[id], kind).rows;
    var c, d := RowCell(id, kind, rows[i]), RowCell(id, kind, rows[j]);
    UserCellListed(id, configs[id], c, kind, i);
    UserCellListed(id, configs[id], d, kind, j);
    assert InConfig(listing, configs, n, c) && InConfig(listing, configs, n, d);
    InAllCells(listing, configs, c);
    InAllCells(listing, configs, d);
  }

  /** The same in the operator's terms: with slash-free ids, no credential changes exactly when each
      user list gives a user one plaintext password and old markers name no freshly written key. */
  lemma MigrationKeepsCredentialsIff(listing: seq<string>, configs: map<string, Config>, secrets: map<string, string>)
    requires Listed(listing, configs) && forall id :: id in listing ==> '/' !in id
    ensures MeansTheSame(listing, configs, secrets, {})
            <==> AllUsersAgree(listing, configs) && OldRefsAgree(AllCells(listing, configs), secrets)
  {
    hide AllCells, SharedKeysAgree, OldRefsAgree, AllUsersAgree, MeansTheSame;
    MigrationKeepsMeaningIff(listing, configs, secrets, {});
    SharedKeysAgreeIff(listing, configs);
  }

  // ---------------------------------------------------------------- afterwards

  lemma MovedIsNotPlain(key: string, value: string)
    ensures !Plain(Moved(key, value))
  {
    MarkerLeadsBack(key);
  }

  lemma RowsMoved(id: string, kind: string, body: Csv, c: Cell)
    requires c in RowCells(id, kind, MovedCsv(id, kind, body).rows)
    ensures !Plain(c.value)
  {
    var rows := MovedCsv(id, kind, body).rows;
    InRowCells(id, kind, rows, c);
    var i :| 0 <= i < |rows| && |rows[i]| >= 2 && c == RowCell(id, kind, rows[i]);
    assert rows[i] == MovedRow(id, kind, body.rows[i]);
    MovedIsNotPlain(KeyOf(id, UserField(kind, body.rows[i][0])), body.rows[i][1]);
  }

  /** A rewritten schedule holds nothing the scan would list or a second migration would move. */
  lemma SecondScanIsEmpty(id: string, cfg: Config, unsaved: set<string>)
    requires id !in unsaved
    ensures Plains(ConfigCells(id, Rewritten(id, cfg, unsaved))) == []
    ensures Rewritten(id, Rewritten(id, cfg, unsaved), unsaved) == Rewritten(id, cfg, unsaved)
  {
    hide Moved, KeyOf, RowCells, MovedCsv;
    var moved := MovedConfig(id, cfg);
    forall c | c in ConfigCells(id, moved) ensures !Plain(c.value) {
      if c in ScalarCells(id, moved) {
        MovedIsNotPlain(KeyOf(id, "target_password"), cfg.targetPassword);
        MovedIsNotPlain(KeyOf(id, "private_key_pem"), cfg.privateKey);
        MovedIsNotPlain(KeyOf(id, "private_key_passphrase"), cfg.passphrase);
        MovedIsNotPlain(KeyOf(id, "bastion_pass"), cfg.bastionPass);
        MovedIsNotPlain(KeyOf(id, "bastion_private_key_pem"), cfg.bastionKey);
        MovedIsNotPlain(KeyOf(id, "bastion_passphrase"), cfg.bastionPassphrase);
      } else if c in RowCells(id, NORMAL, moved.normalUsers.rows) {
        RowsMoved(id, NORMAL, cfg.normalUsers, c);
      } else if c in RowCells(id, LARGE, moved.largeUsers.rows) {
        RowsMoved(id, LARGE, cfg.largeUsers, c);
      } else {
        RowsMoved(id, DOWNLOAD, cfg.downloadUsers, c);
      }
    }
    PlainsMeaning(ConfigCells(id, moved));
  }

  /** Schedules are rewritten before the vault file is. If the vault as it was on disk is what
      survives, a moved credential still resolves exactly when it was stored there already. */
  lemma VaultFileLost(key: string, value: string, onDisk: map<string, string>)
    requires Plain(value) && ':' in key
    ensures Resolved(Moved(key, value), onDisk) == value <==> key in onDisk && onDisk[key] == value
  {
    MarkerLeadsBack(key);
  }

  /** A user list that gives one user two passwords never survives: the first is overwritten in the
      vault by the last. */
  lemma RepeatedUserLosesPassword(id: string, kind: string, body: Csv, secrets: map<string, string>)
    requires !UsersAgree(body.rows)
    ensures !CsvMeant(body, secrets, ResolvedCsv(MovedCsv(id, kind, body), Stored(secrets, RowCells(id, kind, body.rows))))
  {
    var cells := RowCells(id, kind, body.rows);
    ResolvedCsvIsMeant(body, secrets, ResolvedCsv(MovedCsv(id, kind, body), Stored(secrets, cells)));
    RowCellsKeyed(id, kind, body.rows);
    CellsAgreeIff(cells, secrets);
    CsvAgreesIff(id, kind, body, secrets, Stored(secrets, cells));
    var i, j :| RepeatedUser(body.rows, i, j);
    InRowCells(id, kind, body.rows, RowCell(id, kind, body.rows[i]));
    InRowCells(id, kind, body.rows, RowCell(id, kind, body.rows[j]));
  }

  lemma UsersNeedNotAgree()
    ensures !UsersAgree([["ann", "one"], ["ann", "two"]])
  {
    var rows: seq<Row> := [["ann", "one"], ["ann", "two"]];
    assert rows[0][1][0] != rows[1][1][0];
    assert RepeatedUser(rows, 0, 1);
  }

  // ---------------------------------------------------------------- the scan of the whole store

  /** Every schedule's candidates in turn: exactly the keys a migration writes, as often as it does. */
  method Scan(listing: seq<string>, configs: map<string, Config>, order: seq<string>) returns (out: seq<Candidate>)
    requires Listed(listing, configs) && multiset(order) == multiset{NORMAL, LARGE, DOWNLOAD}
    ensures multiset(Refs(out)) == multiset(Keys(Plains(AllCells(listing, configs))))
    ensures |out| == |Plains(AllCells(listing, configs))|
  {
    hide Plains, ConfigCells, Stored;
    out := [];
    NoSchedules(map[], configs);
    for n := 0 to |listing|
      invariant multiset(Refs(out)) == multiset(Keys(Plains(AllCells(listing[..n], configs))))
    {
      var some := ScheduleCandidates(listing[n], configs[listing[n]], order);
      AddSchedule(map[], listing, configs, n);
      KeysOfSum(Plains(AllCells(listing[..n], configs)), Plains(ConfigCells(listing[n], configs[listing[n]])));
      assert Refs(out + some) == Refs(out) + Refs(some);
      out := out + some;
    }
    assert listing[..|listing|] == listing;
    assert |multiset(Refs(out))| == |out|;
  }

  lemma KeysOfSum(a: seq<Cell>, b: seq<Cell>)
    ensures Keys(a + b) == Keys(a) + Keys(b)
  {
  }
}
