/** What a run with downloads adds to the ledger's guarantees: its indices list the records in
    memory and nothing else, and no row reaches the file with its download unexplained. */
module LedgerIndices {
  import opened Collections
  import opened TrackedNames
  import opened Ledger
  import opened LedgerRuns

  /** The text an index files a record under, if it files it at all. */
  type Keyed = FileRecord -> Option<string>

  function UserFile(): Keyed { (r: FileRecord) => Some(Key(r)) }
  function Basename(): Keyed { (r: FileRecord) => Some(r.filename) }
  function Marker(): Keyed { (r: FileRecord) => if r.filenameID == "" then None else Some(r.filenameID) }

  /** The index maps exactly the live records' keys, each to its record's slot. */
  ghost predicate Exact(records: seq<Option<FileRecord>>, index: map<string, nat>, key: Keyed) {
    && (forall s :: 0 <= s < |records| && records[s].Some? ==> FiledAt(index, key(records[s].value), s))
    && (forall k :: k in index ==> ListedFor(records, key, k, index[k]))
  }

  ghost predicate ListedFor(records: seq<Option<FileRecord>>, key: Keyed, k: string, s: nat) {
    s < |records| && records[s].Some? && key(records[s].value) == Some(k)
  }

  ghost predicate FiledAt(index: map<string, nat>, key: Option<string>, s: nat) {
    key.Some? ==> key.value in index && index[key.value] == s
  }

  ghost predicate IndicesExact(l: Ledger) {
    && Exact(l.records, l.byKey, UserFile())
    && Exact(l.records, l.byBasename, Basename())
    && Exact(l.records, l.byFilenameID, Marker())
  }

  predicate FailedUpload(r: FileRecord) {
    r.errorCode != "" && r.trackID == ""
  }

  /** The row says how its download ended, or has no track-id that a download could follow. */
  predicate Explained(r: FileRecord) {
    r.trackID != "" ==> r.downloadEndTime != 0 || r.downloadError != ""
  }

  predicate SameKeys(r: FileRecord, s: FileRecord) {
    r.user == s.user && r.filename == s.filename && r.filenameID == s.filenameID
  }

  /** What the run's finality predicate promises: it keeps the keys, keeps undecided records as
      they were, and calls final only what is prunable and explained. */
  ghost predicate RunFinality(isFinal: Finality) {
    forall r :: FinalityAt(isFinal, r)
  }

  ghost predicate FinalityAt(isFinal: Finality, r: FileRecord) {
    && SameKeys(r, isFinal(r).1)
    && (!isFinal(r).0 ==> isFinal(r).1 == r)
    && (isFinal(r).0 ==> CanPrune(isFinal(r).1) && Explained(isFinal(r).1))
    && (!FailedUpload(r) ==> !FailedUpload(isFinal(r).1))
  }

  lemma IsRecordFinalIsRunFinality(grace: int, now: int)
    ensures RunFinality(IsRecordFinal(true, grace, now))
  {
  }

  predicate Fresh(l: Ledger, r: FileRecord) {
    && Key(r) !in l.byKey && r.filename !in l.byBasename
    && (r.filenameID != "" ==> r.filenameID !in l.byFilenameID)
  }

  /** What the runner's own steps respect: fresh keys, track-ids only for uploads that succeeded,
      download results with an end time, and the run's finality predicate. */
  ghost predicate Disciplined(b: Book, e: Event) {
    match e
    case Add(r) => Fresh(b.l, r)
    case Track(u, f, id, _, out) =>
      && (id != "" || out)
      && (UserKey(u, f) in b.l.byKey && Live(b.l, b.l.byKey[UserKey(u, f)]) ==>
            !FailedUpload(b.l.records[b.l.byKey[UserKey(u, f)]].value))
    case Attach(_, d) => d.endTime != 0
    case Stamp(_) => false
    case Collect(isFinal) => RunFinality(isFinal)
    case _ => true
  }

  ghost predicate BatchPrunable(l: Ledger, batch: seq<Row>) {
    forall i :: 0 <= i < |batch| ==> Live(l, batch[i].slot) && CanPrune(l.records[batch[i].slot].value)
  }

  ghost predicate AllExplained(rows: seq<Row>) {
    forall i :: 0 <= i < |rows| ==> Explained(rows[i].record)
  }

  ghost predicate Indexed(b: Book) {
    && Conserved(b) && IndicesExact(b.l) && AllExplained(b.disk)
    && (!b.phase.Open? ==> BatchPrunable(b.l, b.phase.batch) && AllExplained(b.phase.batch))
  }

  /** What each of the three entry points asks for. */
  predicate AskedFor(via: Lookup, r: FileRecord) {
    match via
    case ByKey(user, filename) => r.user + "|" + r.filename == user + "|" + filename
    case ByBasename(name) => r.filename == name
    case ByMarker(marker) => marker != "" && r.filenameID == marker
  }

  /** With exact indices an attach finds a record if and only if one in memory is what it asks for, and then that one. */
  lemma FindsWhatIsAskedIff(l: Ledger, via: Lookup)
    requires IndicesExact(l)
    ensures CanAttach(l, via) <==> exists s :: 0 <= s < |l.records| && l.records[s].Some? && AskedFor(via, l.records[s].value)
    ensures forall s :: 0 <= s < |l.records| && l.records[s].Some? && AskedFor(via, l.records[s].value) ==> Find(l, via) == Some(s)
  {
    forall s | 0 <= s < |l.records| && l.records[s].Some? && AskedFor(via, l.records[s].value)
      ensures Find(l, via) == Some(s)
    {
      var r := l.records[s].value;
      assert FiledAt(l.byKey, UserFile()(r), s) && FiledAt(l.byBasename, Basename()(r), s) && FiledAt(l.byFilenameID, Marker()(r), s);
    }
    if CanAttach(l, via) {
      var s := Find(l, via).value;
      match via
      case ByKey(u, f) => assert ListedFor(l.records, UserFile(), UserKey(u, f), s);
      case ByBasename(b) => assert ListedFor(l.records, Basename(), b, s);
      case ByMarker(m) => assert ListedFor(l.records, Marker(), m, s);
    }
  }

  lemma ExactAdd(l: Ledger, r: FileRecord, index: map<string, nat>, key: Keyed)
    requires Exact(l.records, index, key)
    requires key(r).Some? ==> key(r).value !in index
    ensures Exact(l.records + [Some(r)],
                  if key(r).Some? then index[key(r).value := |l.records|] else index, key)
  {
  }

  lemma AddIndexed(b: Book, r: FileRecord)
    requires Indexed(b) && Fresh(b.l, r)
    ensures Indexed(b.(l := Uploaded(b.l, r)))
  {
    AddKeeps(b, r);
    ExactAdd(b.l, r, b.l.byKey, UserFile());
    ExactAdd(b.l, r, b.l.byBasename, Basename());
    ExactAdd(b.l, r, b.l.byFilenameID, Marker());
  }

  /** Every record kept its keys, its liveness and its indices. */
  ghost predicate KeysKept(l: Ledger, m: Ledger) {
    && SameShape(l, m)
    && m.byKey == l.byKey && m.byBasename == l.byBasename && m.byFilenameID == l.byFilenameID
    && forall s :: 0 <= s < |l.records| && l.records[s].Some? ==>
         SameKeys(l.records[s].value, m.records[s].value)
  }

  lemma KeysKeptExact(l: Ledger, m: Ledger)
    requires IndicesExact(l) && KeysKept(l, m)
    ensures IndicesExact(m)
  {
    hide Exact;
    SameKeysExact(l, m, l.byKey, UserFile());
    SameKeysExact(l, m, l.byBasename, Basename());
    SameKeysExact(l, m, l.byFilenameID, Marker());
  }

  lemma SameKeysExact(l: Ledger, m: Ledger, index: map<string, nat>, key: Keyed)
    requires KeysKept(l, m) && Exact(l.records, index, key)
    requires forall r, s :: SameKeys(r, s) ==> key(r) == key(s)
    ensures Exact(m.records, index, key)
  {
  }

  ghost predicate PrunableKept(l: Ledger, m: Ledger) {
    && SameShape(l, m)
    && forall s :: 0 <= s < |l.records| && l.records[s].Some? && CanPrune(l.records[s].value) ==>
         CanPrune(m.records[s].value)
  }

  lemma UpdateIndexed(b: Book, m: Ledger)
    requires Indexed(b) && KeysKept(b.l, m) && PrunableKept(b.l, m)
    ensures Indexed(b.(l := m))
  {
    ShapeKeeps(b, m);
    KeysKeptExact(b.l, m);
  }

  lemma CollectKeysKept(l: Ledger, isFinal: Finality)
    requires RunFinality(isFinal)
    ensures KeysKept(l, Collected(l, isFinal))
  {
    forall s | 0 <= s < |l.records| && l.records[s].Some?
      ensures SameKeys(l.records[s].value, Collected(l, isFinal).records[s].value)
    {
      assert FinalityAt(isFinal, l.records[s].value);
    }
  }

  lemma CollectPrunable(l: Ledger, isFinal: Finality)
    requires RunFinality(isFinal)
    ensures BatchPrunable(Collected(l, isFinal), CollectedBatch(l, isFinal))
    ensures AllExplained(CollectedBatch(l, isFinal))
  {
    var m, batch := Collected(l, isFinal), CollectedBatch(l, isFinal);
    BatchMeaning(l.records, |l.records|, isFinal);
    forall i | 0 <= i < |batch|
      ensures Live(m, batch[i].slot) && CanPrune(m.records[batch[i].slot].value) && Explained(batch[i].record)
    {
      assert FromSlot(l.records, isFinal, batch[i]);
      assert FinalityAt(isFinal, l.records[batch[i].slot].value);
    }
  }

  lemma CollectIndexed(b: Book, isFinal: Finality)
    requires Indexed(b) && b.phase.Open? && RunFinality(isFinal)
    ensures Indexed(Apply(b, Collect(isFinal)))
  {
    hide IndicesExact, KeysKept, Conserved, BatchPrunable, AllExplained, Collected, CollectedBatch;
    CollectKeysKept(b.l, isFinal);
    KeysKeptExact(b.l, Collected(b.l, isFinal));
    CollectKeeps(b, isFinal);
    CollectPrunable(b.l, isFinal);
  }

  lemma ExactPrune(records: seq<Option<FileRecord>>, i: nat, index: map<string, nat>, key: Keyed)
    requires Exact(records, index, key) && i < |records| && records[i].Some?
    ensures var k := key(records[i].value);
            Exact(records[i := None], if k.Some? then index - {k.value} else index, key)
  {
  }

  lemma CommitSlotExact(l: Ledger, i: nat)
    requires IndicesExact(l) && Live(l, i) && CanPrune(l.records[i].value)
    ensures IndicesExact(CommitSlot(l, i))
  {
    ExactPrune(l.records, i, l.byKey, UserFile());
    ExactPrune(l.records, i, l.byBasename, Basename());
    ExactPrune(l.records, i, l.byFilenameID, Marker());
  }

  /** A released record is forgotten by the indices if its upload failed, or its download ended or has an error;
      otherwise its entries stay, though every attach through them fails from then on. */
  lemma StillListedIff(l: Ledger, i: nat)
    requires IndicesExact(l) && Live(l, i)
    ensures var m, r := CommitSlot(l, i), l.records[i].value;
            var open := (r.errorCode == "" || r.trackID != "") && r.downloadEndTime == 0 && r.downloadError == "";
            && (Key(r) in m.byKey <==> open) && (r.filename in m.byBasename <==> open)
            && (r.filenameID != "" ==> (r.filenameID in m.byFilenameID <==> open))
            && !CanAttach(m, ByKey(r.user, r.filename)) && !CanAttach(m, ByBasename(r.filename))
            && (r.filenameID != "" ==> !CanAttach(m, ByMarker(r.filenameID)))
  {
    var r := l.records[i].value;
    assert FiledAt(l.byKey, UserFile()(r), i) && FiledAt(l.byBasename, Basename()(r), i);
    assert FiledAt(l.byFilenameID, Marker()(r), i);
  }

  lemma {:induction false} CommitExact(l: Ledger, batch: seq<Row>, n: nat)
    requires IndicesExact(l) && BatchLive(l, batch) && BatchPrunable(l, batch) && n <= |batch|
    ensures IndicesExact(CommitSlots(l, batch, n))
  {
    hide IndicesExact, CommitSlot;
    if n > 0 {
      CommitExact(l, batch, n - 1);
      CommitLeavesRest(l, batch, n - 1, n - 1);
      CommitSlotExact(CommitSlots(l, batch, n - 1), batch[n - 1].slot);
    }
  }

  lemma {:induction false} CommitLeavesRest(l: Ledger, batch: seq<Row>, n: nat, k: nat)
    requires BatchLive(l, batch) && n <= k < |batch|
    ensures CommitSlots(l, batch, n).records[batch[k].slot] == l.records[batch[k].slot]
  {
    if n > 0 {
      CommitLeavesRest(l, batch, n - 1, k);
    }
  }

  lemma BatchIsLive(b: Book)
    requires Conserved(b) && b.phase.Written?
    ensures BatchLive(b.l, b.phase.batch)
  {
  }

  lemma ReleaseIndexed(b: Book)
    requires Indexed(b) && b.phase.Written? && BatchInRange(b)
    ensures Indexed(Apply(b, Release))
  {
    hide Exact, Conserved, CommitSlots, AllExplained;
    ReleaseKeeps(b);
    BatchIsLive(b);
    CommitExact(b.l, b.phase.batch, |b.phase.batch|);
  }

  lemma TrackIndexed(b: Book, e: Event)
    requires Indexed(b) && e.Track? && Disciplined(b, e)
    ensures Indexed(Apply(b, e))
  {
    hide Conserved, IndicesExact;
    UpdateIndexed(b, Apply(b, e).l);
  }

  lemma AttachIndexed(b: Book, e: Event)
    requires Indexed(b) && e.Attach? && Disciplined(b, e)
    ensures Indexed(Apply(b, e))
  {
    hide Conserved, IndicesExact;
    UpdateIndexed(b, Apply(b, e).l);
  }

  lemma StepIndexed(b: Book, e: Event)
    requires Indexed(b) && Enabled(b, e) && BatchInRange(b) && Disciplined(b, e)
    ensures Indexed(Apply(b, e))
  {
    match e
    case Add(r) => AddIndexed(b, r);
    case Track(_, _, _, _, _) => TrackIndexed(b, e);
    case Attach(_, _) => AttachIndexed(b, e);
    case Collect(isFinal) => CollectIndexed(b, isFinal);
    case WriteRows => WriteKeeps(b);
    case Release => ReleaseIndexed(b);
  }

  /** A run whose every step respects the runner's discipline. */
  ghost predicate IsDisciplinedRun(run: seq<Book>, events: seq<Event>) {
    IsRun(run, events) && forall i :: 0 <= i < |events| ==> Disciplined(run[i], events[i])
  }

  lemma {:induction false} RunIndexed(run: seq<Book>, events: seq<Event>, n: nat)
    requires IsDisciplinedRun(run, events) && n < |run|
    ensures Indexed(run[n])
  {
    if n > 0 {
      RunIndexed(run, events, n - 1);
      StepIndexed(run[n - 1], events[n - 1]);
    }
  }

  /** Before sealing, the three indices hold the live records' keys and no others, and every row on
      disk that has a track-id also has a download end time or a download error. */
  lemma IndicesAndRows(run: seq<Book>, events: seq<Event>, n: nat)
    requires IsDisciplinedRun(run, events) && n < |run|
    ensures IndicesExact(run[n].l) && AllExplained(run[n].disk)
  {
    RunIndexed(run, events, n);
  }
}
