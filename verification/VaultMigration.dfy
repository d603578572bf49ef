/** Moving plaintext credentials out of stored schedules into the vault. */
module VaultMigration {

  import opened VaultRefs

  /** The credential fields of a stored schedule. */
  datatype Config = Config(targetPassword: string, privateKey: string, passphrase: string,
                           bastionPass: string, bastionKey: string, bastionPassphrase: string,
                           normalUsers: Csv, largeUsers: Csv, downloadUsers: Csv)

  /** One credential and the vault key it moves to. */
  datatype Cell = Cell(key: string, value: string)
  datatype Candidate = Candidate(scheduleID: string, field: string, ref: string)

  const NORMAL := "normal_users"
  const LARGE := "large_users"
  const DOWNLOAD := "download_users"

  predicate Plain(value: string) {
    value != "" && !IsRef(value)
  }

  function KeyOf(id: string, field: string): string {
    "schedule:" + id + "/" + field
  }

  function UserField(kind: string, user: string): string {
    kind + "." + user
  }

  // ---------------------------------------------------------------- what moves, and where

  function ScalarCells(id: string, cfg: Config): seq<Cell> {
    [ Cell(KeyOf(id, "target_password"), cfg.targetPassword),
      Cell(KeyOf(id, "private_key_pem"), cfg.privateKey),
      Cell(KeyOf(id, "private_key_passphrase"), cfg.passphrase),
      Cell(KeyOf(id, "bastion_pass"), cfg.bastionPass),
      Cell(KeyOf(id, "bastion_private_key_pem"), cfg.bastionKey),
      Cell(KeyOf(id, "bastion_passphrase"), cfg.bastionPassphrase) ]
  }

  function RowCell(id: string, kind: string, row: Row): Cell
    requires |row| >= 2
  {
    Cell(KeyOf(id, UserField(kind, row[0])), row[1])
  }

  function RowCells(id: string, kind: string, rows: seq<Row>): seq<Cell> {
    if rows == [] then []
    else
      var row := rows[|rows| - 1];
      RowCells(id, kind, rows[..|rows| - 1]) + if |row| >= 2 then [RowCell(id, kind, row)] else []
  }

  function ConfigCells(id: string, cfg: Config): seq<Cell> {
    ScalarCells(id, cfg) + RowCells(id, NORMAL, cfg.normalUsers.rows)
    + RowCells(id, LARGE, cfg.largeUsers.rows) + RowCells(id, DOWNLOAD, cfg.downloadUsers.rows)
  }

  function AllCells(listing: seq<string>, configs: map<string, Config>): seq<Cell>
    requires forall i :: 0 <= i < |listing| ==> listing[i] in configs
  {
    if listing == [] then []
    else
      var id := listing[|listing| - 1];
      AllCells(listing[..|listing| - 1], configs) + ConfigCells(id, configs[id])
  }

  /** The cells that are plaintext, in order. */
  function Plains(cells: seq<Cell>): seq<Cell> {
    if cells == [] then []
    else
      Plains(cells[..|cells| - 1]) + if Plain(cells[|cells| - 1].value) then [cells[|cells| - 1]] else []
  }

  /** The vault once every plaintext cell has been set, in order. */
  function Stored(secrets: map<string, string>, cells: seq<Cell>): map<string, string> {
    if cells == [] then secrets
    else
      var before, c := Stored(secrets, cells[..|cells| - 1]), cells[|cells| - 1];
      if Plain(c.value) then before[c.key := c.value] else before
  }

  function Moved(key: string, value: string): string {
    if Plain(value) then Marker(key) else value
  }

  function MovedRow(id: string, kind: string, row: Row): Row {
    if |row| >= 2 then row[1 := Moved(KeyOf(id, UserField(kind, row[0])), row[1])] else row
  }

  function MovedCsv(id: string, kind: string, body: Csv): Csv {
    if Empty(body) then body
    else Csv(seq(|body.rows|, i requires 0 <= i < |body.rows| => MovedRow(id, kind, body.rows[i])), "")
  }

  function MovedConfig(id: string, cfg: Config): Config {
    Config(Moved(KeyOf(id, "target_password"), cfg.targetPassword),
           Moved(KeyOf(id, "private_key_pem"), cfg.privateKey),
           Moved(KeyOf(id, "private_key_passphrase"), cfg.passphrase),
           Moved(KeyOf(id, "bastion_pass"), cfg.bastionPass),
           Moved(KeyOf(id, "bastion_private_key_pem"), cfg.bastionKey),
           Moved(KeyOf(id, "bastion_passphrase"), cfg.bastionPassphrase),
           MovedCsv(id, NORMAL, cfg.normalUsers),
           MovedCsv(id, LARGE, cfg.largeUsers),
           MovedCsv(id, DOWNLOAD, cfg.downloadUsers))
  }

  function ResolvedConfig(cfg: Config, secrets: map<string, string>): Config {
    Config(Resolved(cfg.targetPassword, secrets), Resolved(cfg.privateKey, secrets),
           Resolved(cfg.passphrase, secrets), Resolved(cfg.bastionPass, secrets),
           Resolved(cfg.bastionKey, secrets), Resolved(cfg.bastionPassphrase, secrets),
           ResolvedCsv(cfg.normalUsers, secrets), ResolvedCsv(cfg.largeUsers, secrets),
           ResolvedCsv(cfg.downloadUsers, secrets))
  }

  /** Every credential is in the field it was stored in. */
  ghost predicate ConfigMeant(was: Config, secrets: map<string, string>, got: Config) {
    && Meant(was.targetPassword, secrets, got.targetPassword)
    && Meant(was.privateKey, secrets, got.privateKey)
    && Meant(was.passphrase, secrets, got.passphrase)
    && Meant(was.bastionPass, secrets, got.bastionPass)
    && Meant(was.bastionKey, secrets, got.bastionKey)
    && Meant(was.bastionPassphrase, secrets, got.bastionPassphrase)
    && CsvMeant(was.normalUsers, secrets, got.normalUsers)
    && CsvMeant(was.largeUsers, secrets, got.largeUsers)
    && CsvMeant(was.downloadUsers, secrets, got.downloadUsers)
  }

  /** Resolution gives each field what it stands for, and nothing else is such a config. */
  lemma ResolvedConfigIsMeant(was: Config, secrets: map<string, string>, got: Config)
    ensures ConfigMeant(was, secrets, got) <==> got == ResolvedConfig(was, secrets)
  {
    hide Meant, Resolved, CsvMeant, ResolvedCsv;
    ResolvedIsMeant(was.targetPassword, secrets, got.targetPassword);
    ResolvedIsMeant(was.privateKey, secrets, got.privateKey);
    ResolvedIsMeant(was.passphrase, secrets, got.passphrase);
    ResolvedIsMeant(was.bastionPass, secrets, got.bastionPass);
    ResolvedIsMeant(was.bastionKey, secrets, got.bastionKey);
    ResolvedIsMeant(was.bastionPassphrase, secrets, got.bastionPassphrase);
    ResolvedCsvIsMeant(was.normalUsers, secrets, got.normalUsers);
    ResolvedCsvIsMeant(was.largeUsers, secrets, got.largeUsers);
    ResolvedCsvIsMeant(was.downloadUsers, secrets, got.downloadUsers);
  }

  /** What stands in a stored schedule afterwards: a marker for the credential's own key in place of a plaintext. */
  ghost predicate Replaced(was: string, place: string, got: string) {
    got == if was != "" && !(PREFIX <= was) then PREFIX + "schedule:" + place else was
  }

  /** Row for row, only second cells change; what could not be read is lost. */
  ghost predicate CsvReplaced(was: Csv, id: string, kind: string, got: Csv) {
    && |got.rows| == |was.rows| && got.rest == ""
    && forall i :: 0 <= i < |was.rows| ==> RowReplaced(was.rows[i], id + "/" + kind, got.rows[i])
  }

  ghost predicate RowReplaced(was: Row, list: string, got: Row) {
    && |got| == |was|
    && forall c :: 0 <= c < |was| ==>
         if c == 1 then Replaced(was[c], list + "." + was[0], got[c]) else got[c] == was[c]
  }

  ghost predicate ConfigReplaced(was: Config, id: string, got: Config) {
    && Replaced(was.targetPassword, id + "/" + "target_password", got.targetPassword)
    && Replaced(was.privateKey, id + "/" + "private_key_pem", got.privateKey)
    && Replaced(was.passphrase, id + "/" + "private_key_passphrase", got.passphrase)
    && Replaced(was.bastionPass, id + "/" + "bastion_pass", got.bastionPass)
    && Replaced(was.bastionKey, id + "/" + "bastion_private_key_pem", got.bastionKey)
    && Replaced(was.bastionPassphrase, id + "/" + "bastion_passphrase", got.bastionPassphrase)
    && CsvReplaced(was.normalUsers, id, "normal_users", got.normalUsers)
    && CsvReplaced(was.largeUsers, id, "large_users", got.largeUsers)
    && CsvReplaced(was.downloadUsers, id, "download_users", got.downloadUsers)
  }

  lemma MovedIsReplaced(id: string, field: string, value: string)
    ensures Replaced(value, id + "/" + field, Moved(KeyOf(id, field), value))
  {
    var key := KeyOf(id, field);
    assert key == "schedule:" + (id + "/" + field);
    assert key[8] == ':' && key[0..] == key;
    MarkerFrom(key, 0);
    assert PREFIX + "schedule:" + (id + "/" + field) == PREFIX + ("schedule:" + (id + "/" + field));
  }

  lemma MovedRowIsReplaced(id: string, kind: string, row: Row)
    ensures RowReplaced(row, id + "/" + kind, MovedRow(id, kind, row))
  {
    hide Replaced, Moved, KeyOf;
    if |row| >= 2 {
      MovedIsReplaced(id, UserField(kind, row[0]), row[1]);
      assert id + "/" + UserField(kind, row[0]) == id + "/" + kind + "." + row[0];
    }
  }

  lemma MovedCsvIsReplaced(id: string, kind: string, body: Csv)
    ensures CsvReplaced(body, id, kind, MovedCsv(id, kind, body))
  {
    hide RowReplaced, MovedRow;
    forall i | 0 <= i < |body.rows| ensures RowReplaced(body.rows[i], id + "/" + kind, MovedRow(id, kind, body.rows[i])) {
      MovedRowIsReplaced(id, kind, body.rows[i]);
    }
  }

  lemma MovedConfigIsReplaced(id: string, cfg: Config)
    ensures ConfigReplaced(cfg, id, MovedConfig(id, cfg))
  {
    hide Replaced, Moved, KeyOf, CsvReplaced, MovedCsv;
    MovedIsReplaced(id, "target_password", cfg.targetPassword);
    MovedIsReplaced(id, "private_key_pem", cfg.privateKey);
    MovedIsReplaced(id, "private_key_passphrase", cfg.passphrase);
    MovedIsReplaced(id, "bastion_pass", cfg.bastionPass);
    MovedIsReplaced(id, "bastion_private_key_pem", cfg.bastionKey);
    MovedIsReplaced(id, "bastion_passphrase", cfg.bastionPassphrase);
    MovedCsvIsReplaced(id, NORMAL, cfg.normalUsers);
    MovedCsvIsReplaced(id, LARGE, cfg.largeUsers);
    MovedCsvIsReplaced(id, DOWNLOAD, cfg.downloadUsers);
  }

  lemma {:induction false} StoredInTwo(secrets: map<string, string>, a: seq<Cell>, b: seq<Cell>)
    ensures Stored(secrets, a + b) == Stored(Stored(secrets, a), b)
    ensures Plains(a + b) == Plains(a) + Plains(b)
    decreases |b|
  {
    if b == [] {
      assert a + b == a;
    } else {
      assert (a + b)[..|a + b| - 1] == a + b[..|b| - 1];
      StoredInTwo(secrets, a, b[..|b| - 1]);
    }
  }

  /** Every generated key is one the vault accepts, and one a marker leads back to. */
  lemma KeysAreSettable(id: string)
    ensures forall field :: KeyOf(id, field) != "" && ':' in KeyOf(id, field)
  {
  }

  // ---------------------------------------------------------------- the migration itself

  class Vault {
    var secrets: map<string, string>

    /** What its file on disk holds. */
    var file: map<string, string>

    method Save(succeeds: bool)
      modifies this`file
      ensures file == if succeeds then secrets else old(file)
    {
      if succeeds {
        file := secrets;
      }
    }

    /** Empty keys and empty secrets are refused. */
    method Set(ref: string, secret: string) returns (ok: bool)
      modifies this`secrets
      ensures ok == (ref != "" && secret != "")
      ensures secrets == if ok then old(secrets)[ref := secret] else old(secrets)
    {
      if ref == "" || secret == "" {
        return false;
      }
      secrets := secrets[ref := secret];
      return true;
    }
  }

  method MoveScalar(v: Vault, value: string, refKey: string, soFar: nat) returns (out: string, migrated: nat)
    requires refKey != ""
    modifies v`secrets
    ensures out == Moved(refKey, value)
    ensures v.secrets == Stored(old(v.secrets), [Cell(refKey, value)])
    ensures migrated == soFar + |Plains([Cell(refKey, value)])|
  {
    assert [Cell(refKey, value)][..0] == [];
    if value == "" || IsRef(value) {
      return value, soFar;
    }
    var _ := v.Set(refKey, value);
    return Marker(refKey), soFar + 1;
  }

  method MigrateCSV(body: Csv, id: string, kind: string, v: Vault, soFar: nat) returns (out: Csv, migrated: nat)
    modifies v`secrets
    ensures out == MovedCsv(id, kind, body)
    ensures v.secrets == Stored(old(v.secrets), RowCells(id, kind, body.rows))
    ensures migrated == soFar + |Plains(RowCells(id, kind, body.rows))|
  {
    hide Stored, Plains, KeyOf, UserField, Marker, IsRef, RowCells;
    migrated := soFar;
    NoRows(v.secrets, id, kind);
    KeysAreSettable(id);
    if Empty(body) {
      return body, migrated;
    }
    var written: seq<Row> := [];
    for n := 0 to |body.rows|
      invariant |written| == n
      invariant forall i :: 0 <= i < n ==> written[i] == MovedRow(id, kind, body.rows[i])
      invariant v.secrets == Stored(old(v.secrets), RowCells(id, kind, body.rows[..n]))
      invariant migrated == soFar + |Plains(RowCells(id, kind, body.rows[..n]))|
    {
      var row := body.rows[n];
      AddRow(old(v.secrets), id, kind, body.rows, n);
      if |row| >= 2 {
        if row[1] != "" && !IsRef(row[1]) {
          var ref := KeyOf(id, UserField(kind, row[0]));
          var _ := v.Set(ref, row[1]);
          row := row[1 := Marker(ref)];
          migrated := migrated + 1;
        }
      }
      written := written + [row];
    }
    assert body.rows[..|body.rows|] == body.rows;
    out := Csv(written, "");
  }

  lemma NoRows(secrets: map<string, string>, id: string, kind: string)
    ensures Stored(secrets, RowCells(id, kind, [])) == secrets && Plains(RowCells(id, kind, [])) == []
  {
  }

  lemma AddRow(secrets: map<string, string>, id: string, kind: string, rows: seq<Row>, n: nat)
    requires n < |rows|
    ensures var before, row := RowCells(id, kind, rows[..n]), rows[n];
            var after, moves := RowCells(id, kind, rows[..n + 1]), |row| >= 2 && Plain(row[1]);
            && Stored(secrets, after) == (if moves then Stored(secrets, before)[KeyOf(id, UserField(kind, row[0])) := row[1]]
                                           else Stored(secrets, before))
            && |Plains(after)| == |Plains(before)| + if moves then 1 else 0
  {
    assert rows[..n + 1][..n] == rows[..n];
    var before, row := RowCells(id, kind, rows[..n]), rows[n];
    if |row| < 2 {
      assert before + [] == before;
    } else {
      assert (before + [RowCell(id, kind, row)])[..|before|] == before;
    }
  }

  /** All of one schedule's credentials, scalars first; each plaintext gives way to the marker of its own key. */
  method MigrateConfig(id: string, cfg: Config, v: Vault, soFar: nat) returns (out: Config, migrated: nat)
    modifies v`secrets
    ensures out == MovedConfig(id, cfg) && ConfigReplaced(cfg, id, out)
    ensures v.secrets == Stored(old(v.secrets), ConfigCells(id, cfg))
    ensures migrated == soFar + |Plains(ConfigCells(id, cfg))|
  {
    hide Moved, Stored, Plains, RowCells, MovedCsv, KeyOf, ConfigReplaced;
    ghost var s0 := v.secrets;
    ghost var cells := ScalarCells(id, cfg);
    var a, b, c, d, e, f, x, y, z;
    KeysAreSettable(id);
    a, migrated := MoveScalar(v, cfg.targetPassword, KeyOf(id, "target_password"), soFar);
    b, migrated := MoveScalar(v, cfg.privateKey, KeyOf(id, "private_key_pem"), migrated);
    c, migrated := MoveScalar(v, cfg.passphrase, KeyOf(id, "private_key_passphrase"), migrated);
    d, migrated := MoveScalar(v, cfg.bastionPass, KeyOf(id, "bastion_pass"), migrated);
    e, migrated := MoveScalar(v, cfg.bastionKey, KeyOf(id, "bastion_private_key_pem"), migrated);
    f, migrated := MoveScalar(v, cfg.bastionPassphrase, KeyOf(id, "bastion_passphrase"), migrated);
    Six(s0, cells);
    var r0, r1, r2 := RowCells(id, NORMAL, cfg.normalUsers.rows), RowCells(id, LARGE, cfg.largeUsers.rows),
                      RowCells(id, DOWNLOAD, cfg.downloadUsers.rows);
    x, migrated := MigrateCSV(cfg.normalUsers, id, NORMAL, v, migrated);
    StoredInTwo(s0, cells, r0);
    y, migrated := MigrateCSV(cfg.largeUsers, id, LARGE, v, migrated);
    StoredInTwo(s0, cells + r0, r1);
    z, migrated := MigrateCSV(cfg.downloadUsers, id, DOWNLOAD, v, migrated);
    StoredInTwo(s0, cells + r0 + r1, r2);
    out := Config(a, b, c, d, e, f, x, y, z);
    MovedConfigIsReplaced(id, cfg);
  }

  lemma Six(s0: map<string, string>, cells: seq<Cell>)
    requires |cells| == 6
    ensures Stored(s0, cells)
            == Stored(Stored(Stored(Stored(Stored(Stored(s0, [cells[0]]), [cells[1]]), [cells[2]]), [cells[3]]), [cells[4]]), [cells[5]])
    ensures Plains(cells) == Plains([cells[0]]) + Plains([cells[1]]) + Plains([cells[2]])
                             + Plains([cells[3]]) + Plains([cells[4]]) + Plains([cells[5]])
  {
    hide Stored, Plains;
    assert cells[..1] == [cells[0]];
    StoredInTwo(s0, cells[..1], [cells[1]]);
    assert cells[..1] + [cells[1]] == cells[..2];
    StoredInTwo(s0, cells[..2], [cells[2]]);
    assert cells[..2] + [cells[2]] == cells[..3];
    StoredInTwo(s0, cells[..3], [cells[3]]);
    assert cells[..3] + [cells[3]] == cells[..4];
    StoredInTwo(s0, cells[..4], [cells[4]]);
    assert cells[..4] + [cells[4]] == cells[..5];
    StoredInTwo(s0, cells[..5], [cells[5]]);
    assert cells[..5] + [cells[5]] == cells;
  }

  // ---------------------------------------------------------------- scanning

  function Refs(candidates: seq<Candidate>): seq<string> {
    seq(|candidates|, i requires 0 <= i < |candidates| => candidates[i].ref)
  }

  function Keys(cells: seq<Cell>): seq<string> {
    seq(|cells|, i requires 0 <= i < |cells| => cells[i].key)
  }

  /** The label names the list and the user of a row whose password moves to the candidate's key. */
  ghost predicate LabelledAt(c: Candidate, id: string, kind: string, rows: seq<Row>, i: nat) {
    && i < |rows| && |rows[i]| >= 2 && Plain(rows[i][1])
    && c.field == kind + ".csv:" + rows[i][0] && c.ref == KeyOf(id, UserField(kind, rows[i][0]))
  }

  ghost predicate LabelledFor(c: Candidate, id: string, kind: string, rows: seq<Row>) {
    exists i: nat :: LabelledAt(c, id, kind, rows, i)
  }

  method CsvCandidates(id: string, kind: string, body: Csv) returns (out: seq<Candidate>)
    ensures Refs(out) == Keys(Plains(RowCells(id, kind, body.rows)))
    ensures forall i :: 0 <= i < |out| ==> out[i].scheduleID == id && LabelledFor(out[i], id, kind, body.rows)
  {
    hide Plains, RowCells, KeyOf, UserField;
    out := [];
    NoRows(map[], id, kind);
    if Empty(body) {
      return;
    }
    for n := 0 to |body.rows|
      invariant Refs(out) == Keys(Plains(RowCells(id, kind, body.rows[..n])))
      invariant forall i :: 0 <= i < |out| ==> out[i].scheduleID == id && LabelledFor(out[i], id, kind, body.rows)
    {
      var row := body.rows[n];
      AddRowKey(id, kind, body.rows, n);
      if |row| < 2 {
        continue;
      }
      if row[1] == "" || IsRef(row[1]) {
        continue;
      }
      assert LabelledAt(Candidate(id, kind + ".csv:" + row[0], KeyOf(id, UserField(kind, row[0]))), id, kind, body.rows, n);
      out := out + [Candidate(id, kind + ".csv:" + row[0], KeyOf(id, UserField(kind, row[0])))];
    }
    assert body.rows[..|body.rows|] == body.rows;
  }

  lemma AddRowKey(id: string, kind: string, rows: seq<Row>, n: nat)
    requires n < |rows|
    ensures var before, row := Keys(Plains(RowCells(id, kind, rows[..n]))), rows[n];
            Keys(Plains(RowCells(id, kind, rows[..n + 1])))
            == if |row| >= 2 && Plain(row[1]) then before + [KeyOf(id, UserField(kind, row[0]))] else before
  {
    assert rows[..n + 1][..n] == rows[..n];
    var before, row := RowCells(id, kind, rows[..n]), rows[n];
    if |row| < 2 {
      assert before + [] == before;
    } else {
      assert (before + [RowCell(id, kind, row)])[..|before|] == before;
    }
  }

  method Add(soFar: seq<Candidate>, id: string, field: string, value: string) returns (out: seq<Candidate>)
    ensures Refs(out) == Refs(soFar) + Keys(Plains([Cell(KeyOf(id, field), value)]))
    ensures forall i :: 0 <= i < |out| ==> out[i] in soFar || (out[i].scheduleID == id && out[i].ref == KeyOf(id, out[i].field))
  {
    assert [Cell(KeyOf(id, field), value)][..0] == [];
    if value == "" || IsRef(value) {
      return soFar;
    }
    return soFar + [Candidate(id, field, KeyOf(id, field))];
  }

  method ScalarCandidates(id: string, cfg: Config) returns (out: seq<Candidate>)
    ensures Refs(out) == Keys(Plains(ScalarCells(id, cfg)))
    ensures forall i :: 0 <= i < |out| ==> out[i].scheduleID == id && out[i].ref == KeyOf(id, out[i].field)
  {
    hide Plains, KeyOf, Keys, Refs;
    NoCandidates();
    out := Add([], id, "target_password", cfg.targetPassword);
    out := Add(out, id, "private_key_pem", cfg.privateKey);
    out := Add(out, id, "private_key_passphrase", cfg.passphrase);
    out := Add(out, id, "bastion_pass", cfg.bastionPass);
    out := Add(out, id, "bastion_private_key_pem", cfg.bastionKey);
    out := Add(out, id, "bastion_passphrase", cfg.bastionPassphrase);
    KeysOfSix(ScalarCells(id, cfg));
  }

  lemma NoCandidates()
    ensures Refs([]) == []
  {
  }

  lemma KeysOfSix(cells: seq<Cell>)
    requires |cells| == 6
    ensures Keys(Plains(cells))
            == Keys(Plains([cells[0]])) + Keys(Plains([cells[1]])) + Keys(Plains([cells[2]]))
               + Keys(Plains([cells[3]])) + Keys(Plains([cells[4]])) + Keys(Plains([cells[5]]))
  {
    hide Plains;
    Six(map[], cells);
  }

  /** The three CSVs are visited in whatever order the map yields them. */
  method ScheduleCandidates(id: string, cfg: Config, order: seq<string>) returns (out: seq<Candidate>)
    requires multiset(order) == multiset{NORMAL, LARGE, DOWNLOAD}
    ensures multiset(Refs(out)) == multiset(Keys(Plains(ConfigCells(id, cfg))))
    ensures forall i :: 0 <= i < |out| ==> out[i].scheduleID == id
  {
    hide Plains, RowCells, KeyOf, ScalarCells, ConfigCells, Keys, BodyOf, LabelledFor, Refs;
    out := ScalarCandidates(id, cfg);
    ghost var scalars := multiset(Refs(out));
    for n := 0 to |order|
      invariant multiset(Refs(out)) == scalars + KeysOf(id, cfg, order[..n])
      invariant forall i :: 0 <= i < |out| ==> out[i].scheduleID == id
    {
      assert order[n] in multiset(order);
      var some := CsvCandidates(id, order[n], BodyOf(cfg, order[n]));
      RefsPlus(out, some);
      assert order[..n + 1][..n] == order[..n];
      out := out + some;
    }
    assert order[..|order|] == order;
    AnyOrder(id, cfg, order);
    KeysInTurn(id, cfg);
  }

  lemma RefsPlus(a: seq<Candidate>, b: seq<Candidate>)
    ensures multiset(Refs(a + b)) == multiset(Refs(a)) + multiset(Refs(b))
  {
    assert Refs(a + b) == Refs(a) + Refs(b);
  }

  function BodyOf(cfg: Config, kind: string): Csv {
    if kind == NORMAL then cfg.normalUsers else if kind == LARGE then cfg.largeUsers else cfg.downloadUsers
  }

  function KindKeys(id: string, cfg: Config, kind: string): multiset<string> {
    multiset(Keys(Plains(RowCells(id, kind, BodyOf(cfg, kind).rows))))
  }

  ghost function KeysOf(id: string, cfg: Config, kinds: seq<string>): multiset<string> {
    if kinds == [] then multiset{}
    else KeysOf(id, cfg, kinds[..|kinds| - 1]) + KindKeys(id, cfg, kinds[|kinds| - 1])
  }

  lemma Three(kinds: seq<string>)
    requires multiset(kinds) == multiset{NORMAL, LARGE, DOWNLOAD}
    ensures |kinds| == 3 && multiset{kinds[0], kinds[1], kinds[2]} == multiset{NORMAL, LARGE, DOWNLOAD}
  {
    assert |multiset(kinds)| == 3;
    assert kinds == [kinds[0], kinds[1], kinds[2]];
  }

  lemma KeysOfMore(id: string, cfg: Config, kinds: seq<string>, kind: string)
    ensures KeysOf(id, cfg, kinds + [kind]) == KeysOf(id, cfg, kinds) + KindKeys(id, cfg, kind)
  {
  }

  lemma SumOfThree(a: string, b: string, c: string, f: string -> multiset<string>)
    requires multiset{a, b, c} == multiset{NORMAL, LARGE, DOWNLOAD}
    ensures f(a) + f(b) + f(c) == f(NORMAL) + f(LARGE) + f(DOWNLOAD)
  {
  }

  lemma AnyOrder(id: string, cfg: Config, kinds: seq<string>)
    requires multiset(kinds) == multiset{NORMAL, LARGE, DOWNLOAD}
    ensures KeysOf(id, cfg, kinds) == KindKeys(id, cfg, NORMAL) + KindKeys(id, cfg, LARGE) + KindKeys(id, cfg, DOWNLOAD)
  {
    hide KindKeys;
    Three(kinds);
    var a, b, c := kinds[0], kinds[1], kinds[2];
    assert kinds == [] + [a] + [b] + [c];
    KeysOfMore(id, cfg, [], a);
    KeysOfMore(id, cfg, [] + [a], b);
    KeysOfMore(id, cfg, [] + [a] + [b], c);
    SumOfThree(a, b, c, k => KindKeys(id, cfg, k));
  }

  lemma KeysInTurn(id: string, cfg: Config)
    ensures multiset(Keys(Plains(ConfigCells(id, cfg))))
            == multiset(Keys(Plains(ScalarCells(id, cfg))))
               + (KindKeys(id, cfg, NORMAL) + KindKeys(id, cfg, LARGE) + KindKeys(id, cfg, DOWNLOAD))
  {
    hide Plains, RowCells, ScalarCells, Keys;
    var s := ScalarCells(id, cfg);
    var r0, r1, r2 := RowCells(id, NORMAL, cfg.normalUsers.rows), RowCells(id, LARGE, cfg.largeUsers.rows),
                      RowCells(id, DOWNLOAD, cfg.downloadUsers.rows);
    StoredInTwo(map[], s, r0);
    StoredInTwo(map[], s + r0, r1);
    StoredInTwo(map[], s + r0 + r1, r2);
    KeysPlus(Plains(s), Plains(r0));
    KeysPlus(Plains(s) + Plains(r0), Plains(r1));
    KeysPlus(Plains(s) + Plains(r0) + Plains(r1), Plains(r2));
    KindsApart(cfg);
    hide BodyOf;
  }

  lemma KeysPlus(a: seq<Cell>, b: seq<Cell>)
    ensures multiset(Keys(a + b)) == multiset(Keys(a)) + multiset(Keys(b))
  {
    assert Keys(a + b) == Keys(a) + Keys(b);
  }

  lemma KindsApart(cfg: Config)
    ensures BodyOf(cfg, NORMAL) == cfg.normalUsers && BodyOf(cfg, LARGE) == cfg.largeUsers
    ensures BodyOf(cfg, DOWNLOAD) == cfg.downloadUsers
  {
    assert NORMAL[0] == 'n' && LARGE[0] == 'l' && DOWNLOAD[0] == 'd';
  }
}
