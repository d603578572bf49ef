/** What the seal's rows say about downloads. The runner first stamps the downloads still pending, then
    collects everything in memory; the consumer of track ids is not stopped in between. */
module SealedRows {

  import opened Collections
  import opened TrackedNames
  import opened Ledger
  import opened LedgerRuns
  import opened LedgerIndices
  import opened SealRuns

  // ---------------------------------------------------------------- one ledger

  /** The seal's rows are all explained exactly when no record in memory has a pending download. */
  lemma SealExplainsIff(m: Ledger)
    ensures AllExplained(CollectedBatch(m, SealAll()))
            <==> forall s :: 0 <= s < |m.records| && m.records[s].Some? ==> !PendingDownload(m.records[s].value)
  {
    var batch := CollectedBatch(m, SealAll());
    BatchMeaning(m.records, |m.records|, SealAll());
    forall i | 0 <= i < |batch| ensures FromSlot(m.records, SealAll(), batch[i]) {
    }
    if AllExplained(batch) {
      forall s | 0 <= s < |m.records| && m.records[s].Some? ensures !PendingDownload(m.records[s].value) {
        assert HasSlot(batch, s);
        var i :| 0 <= i < |batch| && batch[i].slot == s;
        assert FromSlot(m.records, SealAll(), batch[i]);
      }
    }
  }

  /** A track id is about to land on slot `s`, still in memory. */
  predicate LandsOn(l: Ledger, e: Event, s: nat) {
    && e.Track? && UserKey(e.user, e.filename) in l.byKey && l.byKey[UserKey(e.user, e.filename)] == s
    && Live(l, s)
  }

  /** Whatever the ledger: a track id that lands between the stamp and the collection, on a record that had
      none and no download, gets a row the stamp was to prevent. */
  lemma LateTrackIsUnexplained(l: Ledger, code: string, e: Event, s: nat)
    requires LandsOn(l, e, s) && (e.trackID != "" || e.timedOut)
    requires l.records[s].value.trackID == "" && l.records[s].value.downloadEndTime == 0
    requires l.records[s].value.downloadError == ""
    ensures !AllExplained(CollectedBatch(Changed(StampPending(l, code), e), SealAll()))
  {
    var stamped := StampPending(l, code);
    assert stamped.byKey == l.byKey && Live(stamped, s) && stamped.records[s] == l.records[s];
    hide StampPending, CollectedBatch, AllExplained;
    var r := WithTrackID(l.records[s].value, e.trackID, e.at, e.timedOut);
    var m := SetLive(stamped, s, r);
    assert Changed(stamped, e) == m;
    assert m.records[s] == Some(r) && PendingDownload(r);
    SealExplainsIff(m);
  }

  // ---------------------------------------------------------------- runs

  /** What the runner's own steps respect: uploads are added without a track id, a result of the watcher has
      an id or is a timeout, a finished download has an end time, and a finality predicate only stamps. */
  ghost predicate Orderly(e: TwinEvent) {
    match e
    case Change(Add(r)) => r.trackID == ""
    case Change(Track(_, _, id, _, out)) => id != "" || out
    case Change(Attach(_, d)) => d.endTime != 0
    case Pick(_, isFinal) => OnlyStamps(isFinal)
    case _ => true
  }

  ghost predicate OnlyStamps(isFinal: Finality) {
    forall r :: StampsAt(isFinal, r)
  }

  predicate StampsAt(isFinal: Finality, r: FileRecord) {
    && isFinal(r).1.trackID == r.trackID && isFinal(r).1.downloadEndTime == r.downloadEndTime
    && (r.downloadError != "" ==> isFinal(r).1.downloadError != "")
  }

  lemma RunnersPredicatesOnlyStamp(downloads: bool, grace: int, now: int)
    ensures OnlyStamps(IsRecordFinal(downloads, grace, now)) && OnlyStamps(SealAll())
  {
  }

  /** Between the stamp, event `a`, and event `n` a track id landed on slot `s`. */
  ghost predicate Landed(run: seq<Twin>, events: seq<TwinEvent>, a: nat, n: nat, s: nat)
    requires IsTwinRun(run, events)
  {
    exists j :: a < j < n && LandsAt(run, events, j, s)
  }

  ghost predicate LandsAt(run: seq<Twin>, events: seq<TwinEvent>, j: int, s: nat)
    requires IsTwinRun(run, events)
  {
    0 <= j < |events| && events[j].Change? && LandsOn(run[j].l, events[j].e, s)
  }

  /** What one orderly step does to a record in memory after it. */
  ghost predicate SlotFollows(l: Ledger, m: Ledger, lands: bool, s: nat)
    requires Live(m, s)
  {
    var r := m.records[s].value;
    if s >= |l.records| then r.trackID == "" && !lands
    else
      && l.records[s].Some?
      && (lands ==> r.trackID != "")
      && (!lands ==> r.trackID == l.records[s].value.trackID)
      && (!lands && PendingDownload(r) ==> PendingDownload(l.records[s].value))
  }

  lemma ChangeFollows(l: Ledger, e: Event, s: nat)
    requires Orderly(Change(e)) && Live(Changed(l, e), s)
    ensures SlotFollows(l, Changed(l, e), LandsOn(l, e, s), s)
  {
  }

  lemma PickFollows(l: Ledger, isFinal: Finality, s: nat)
    requires OnlyStamps(isFinal) && Live(Collected(l, isFinal), s)
    ensures SlotFollows(l, Collected(l, isFinal), false, s)
  {
    assert StampsAt(isFinal, l.records[s].value);
  }

  lemma FreeFollows(l: Ledger, batch: seq<Row>, s: nat)
    requires Fits(l, batch) && Live(Committed(l, batch), s)
    ensures SlotFollows(l, Committed(l, batch), false, s)
  {
    hide CommitSlots, HasSlot;
    CommitEmpties(l, batch, |batch|);
  }

  lemma StepFollows(run: seq<Twin>, events: seq<TwinEvent>, i: nat, s: nat)
    requires IsTwinRun(run, events) && i < |events| && Orderly(events[i]) && Live(run[i + 1].l, s)
    ensures SlotFollows(run[i].l, run[i + 1].l, LandsAt(run, events, i, s), s)
  {
    hide SlotFollows, LandsOn, Committed, Collected, Changed, CollectedBatch, Live, OnlyStamps;
    var t := run[i];
    match events[i]
    case Change(e) => ChangeFollows(t.l, e, s);
    case Pick(_, isFinal) => PickFollows(t.l, isFinal, s);
    case Free(who) => FreeFollows(t.l, PhaseOf(t, who).batch, s);
    case _ => Unmoved(t.l, s);
  }

  lemma Unmoved(l: Ledger, s: nat)
    requires Live(l, s)
    ensures SlotFollows(l, l, false, s)
  {
  }

  /** The run stamps at event `a` and all steps after it, up to event `n`, are orderly. */
  ghost predicate StampedAt(run: seq<Twin>, events: seq<TwinEvent>, a: nat, n: nat) {
    && IsTwinRun(run, events) && a < n <= |events|
    && events[a].Change? && events[a].e.Stamp? && events[a].e.errCode != ""
    && forall i :: a < i < n ==> Orderly(events[i])
  }

  lemma NeverShorter(run: seq<Twin>, events: seq<TwinEvent>, i: nat)
    requires IsTwinRun(run, events) && i < |events|
    ensures |run[i].l.records| <= |run[i + 1].l.records|
  {
    hide WithDownload, WithTrackID, Stamped, CommitSlots, HasSlot, CollectedBatch, StampSlots, Judged;
    var t := run[i];
    match events[i]
    case Change(e) => ChangedGrows(t.l, e);
    case Pick(_, isFinal) => JudgedShape(t.l, isFinal);
    case Free(who) => CommitEmpties(t.l, PhaseOf(t, who).batch, |PhaseOf(t, who).batch|);
    case _ =>
  }

  lemma JustStamped(run: seq<Twin>, events: seq<TwinEvent>, a: nat, s: nat)
    requires StampedAt(run, events, a, a + 1) && Live(run[a + 1].l, s)
    ensures !PendingDownload(run[a + 1].l.records[s].value)
  {
  }

  lemma LandedLater(run: seq<Twin>, events: seq<TwinEvent>, a: nat, n: nat, s: nat)
    requires IsTwinRun(run, events) && a < n - 1
    ensures Landed(run, events, a, n, s) <==> Landed(run, events, a, n - 1, s) || LandsAt(run, events, n - 1, s)
  {
  }

  /** Slot `s` has a pending download only if a track id has landed on it, and where one has it stays. */
  ghost predicate LandedOnly(l: Ledger, landed: bool, s: nat) {
    && (landed ==> s < |l.records|)
    && (Live(l, s) && PendingDownload(l.records[s].value) ==> landed)
    && (Live(l, s) && landed ==> l.records[s].value.trackID != "")
  }

  lemma LandedOnlyStep(l: Ledger, m: Ledger, before: bool, lands: bool, s: nat)
    requires LandedOnly(l, before, s) && |l.records| <= |m.records| && (lands ==> s < |l.records|)
    requires Live(m, s) ==> SlotFollows(l, m, lands, s)
    ensures LandedOnly(m, before || lands, s)
  {
  }

  lemma RightAfterTheStamp(run: seq<Twin>, events: seq<TwinEvent>, a: nat, s: nat)
    requires StampedAt(run, events, a, a + 1)
    ensures LandedOnly(run[a + 1].l, Landed(run, events, a, a + 1, s), s)
  {
    hide LandsAt, PendingDownload;
    NothingBetween(run, events, a, s);
    if Live(run[a + 1].l, s) {
      JustStamped(run, events, a, s);
    }
  }

  /** One orderly step more. */
  lemma OneStepOn(run: seq<Twin>, events: seq<TwinEvent>, a: nat, n: nat, s: nat)
    requires IsTwinRun(run, events) && a < n < |events| && Orderly(events[n])
    requires LandedOnly(run[n].l, Landed(run, events, a, n, s), s)
    ensures LandedOnly(run[n + 1].l, Landed(run, events, a, n + 1, s), s)
  {
    assert |run| == |events| + 1;
    hide LandedOnly, IsTwinRun, LandsAt, Orderly, Landed, SlotFollows, Live;
    NeverShorter(run, events, n);
    LandedLater(run, events, a, n + 1, s);
    if LandsAt(run, events, n, s) {
      LandsInside(run, events, n, s);
    }
    if Live(run[n + 1].l, s) {
      StepFollows(run, events, n, s);
    }
    LandedOnlyStep(run[n].l, run[n + 1].l, Landed(run, events, a, n, s), LandsAt(run, events, n, s), s);
  }

  /** So it is in every state of a run after the stamp. */
  lemma {:induction false} PendingHasLanded(run: seq<Twin>, events: seq<TwinEvent>, a: nat, n: nat, s: nat)
    requires StampedAt(run, events, a, n)
    ensures LandedOnly(run[n].l, Landed(run, events, a, n, s), s)
  {
    hide LandedOnly, IsTwinRun, Orderly, Landed;
    if n == a + 1 {
      RightAfterTheStamp(run, events, a, s);
    } else {
      PendingHasLanded(run, events, a, n - 1, s);
      OneStepOn(run, events, a, n - 1, s);
    }
  }

  lemma NothingBetween(run: seq<Twin>, events: seq<TwinEvent>, a: nat, s: nat)
    requires IsTwinRun(run, events)
    ensures !Landed(run, events, a, a + 1, s)
  {
  }

  lemma LandsInside(run: seq<Twin>, events: seq<TwinEvent>, j: nat, s: nat)
    requires IsTwinRun(run, events) && LandsAt(run, events, j, s)
    ensures s < |run[j].l.records|
  {
  }

  /** At event `n` slot `s` is in memory without download end or error, and a track id has landed on it since
      the stamp. */
  ghost predicate LateTrack(run: seq<Twin>, events: seq<TwinEvent>, a: nat, n: nat, s: nat)
    requires IsTwinRun(run, events) && n < |run|
  {
    && Live(run[n].l, s)
    && run[n].l.records[s].value.downloadEndTime == 0 && run[n].l.records[s].value.downloadError == ""
    && Landed(run, events, a, n, s)
  }

  ghost predicate SealPicksAt(events: seq<TwinEvent>, p: nat) {
    p < |events| && events[p] == Pick(Seal, SealAll())
  }

  /** Over every run: the seal's row of a slot is unexplained if and only if a track id landed on the slot
      between the stamp and the pick and no download or download error reached it before the pick. */
  lemma SealedRowUnexplainedIff(run: seq<Twin>, events: seq<TwinEvent>, a: nat, p: nat, k: nat)
    requires StampedAt(run, events, a, p) && SealPicksAt(events, p) && k < |InHand(run[p + 1].seal)|
    ensures var row := InHand(run[p + 1].seal)[k];
            !Explained(row.record) <==> LateTrack(run, events, a, p, row.slot)
  {
    var records, row := run[p].l.records, InHand(run[p + 1].seal)[k];
    assert InHand(run[p + 1].seal) == CollectedBatch(run[p].l, SealAll());
    BatchMeaning(records, |records|, SealAll());
    assert FromSlot(records, SealAll(), row);
    hide IsTwinRun, Landed;
    PendingHasLanded(run, events, a, p, row.slot);
  }

  /** The seal's batch as a whole. */
  lemma SealedBatchExplainedIff(run: seq<Twin>, events: seq<TwinEvent>, a: nat, p: nat)
    requires StampedAt(run, events, a, p) && SealPicksAt(events, p)
    ensures AllExplained(InHand(run[p + 1].seal)) <==> forall s :: !LateTrack(run, events, a, p, s)
  {
    assert InHand(run[p + 1].seal) == CollectedBatch(run[p].l, SealAll());
    SealExplainsIff(run[p].l);
    hide IsTwinRun, Landed, CollectedBatch, AllExplained, Orderly;
    forall s: nat | Live(run[p].l, s)
      ensures PendingDownload(run[p].l.records[s].value) <==> LateTrack(run, events, a, p, s)
    {
      PendingHasLanded(run, events, a, p, s);
    }
  }

  // ---------------------------------------------------------------- the whole file

  /** The run seals once, at event `p`, and that batch is written; the periodic picks use the run's finality. */
  ghost predicate SealsOnce(run: seq<Twin>, events: seq<TwinEvent>, a: nat, p: nat) {
    && StampedAt(run, events, a, p) && SealPicksAt(events, p)
    && forall i :: 0 <= i < |events| ==> PlainStep(events[i], i == p)
  }

  ghost predicate PlainStep(e: TwinEvent, isSealing: bool) {
    && (e.Pick? && e.who == Seal ==> isSealing)
    && (e.Pick? && e.who == Periodic ==> RunFinality(e.isFinal))
    && e != Fail(Seal)
  }

  ghost predicate ExplainedOrIn(rows: seq<Row>, batch: seq<Row>) {
    forall k :: 0 <= k < |rows| ==> Explained(rows[k].record) || rows[k] in batch
  }

  /** The only rows that may be unexplained are those of the seal's batch. */
  ghost predicate RowsKnown(t: Twin, batch: seq<Row>) {
    ExplainedOrIn(t.disk, batch) && ExplainedOrIn(InHand(t.periodic), batch) && ExplainedOrIn(InHand(t.seal), batch)
  }

  lemma RowsKnownStep(t: Twin, e: TwinEvent, batch: seq<Row>)
    requires RowsKnown(t, batch) && InRange(t) && CanTake(t, e)
    requires e.Pick? ==> ExplainedOrIn(CollectedBatch(t.l, e.isFinal), batch)
    ensures RowsKnown(Take(t, e), batch)
  {
    hide CollectedBatch, Collected, Committed, Changed, Explained;
  }

  lemma PickedKnown(run: seq<Twin>, events: seq<TwinEvent>, a: nat, p: nat, i: nat)
    requires SealsOnce(run, events, a, p) && i < |events| && events[i].Pick?
    ensures ExplainedOrIn(CollectedBatch(run[i].l, events[i].isFinal), CollectedBatch(run[p].l, SealAll()))
  {
    assert StampedAt(run, events, a, p) && |run| == |events| + 1;
    hide IsTwinRun, CollectedBatch, RunFinality, Explained, StampedAt;
    assert PlainStep(events[i], i == p);
    if events[i].who == Periodic {
      CollectPrunable(run[i].l, events[i].isFinal);
    }
  }

  lemma {:induction false} AllRowsKnown(run: seq<Twin>, events: seq<TwinEvent>, a: nat, p: nat, n: nat)
    requires SealsOnce(run, events, a, p) && n < |run|
    ensures RowsKnown(run[n], CollectedBatch(run[p].l, SealAll()))
  {
    assert StampedAt(run, events, a, p);
    if n > 0 {
      hide CollectedBatch, RowsKnown, SealsOnce, Orderly;
      AllRowsKnown(run, events, a, p, n - 1);
      if events[n - 1].Pick? {
        PickedKnown(run, events, a, p, n - 1);
      }
      RowsKnownStep(run[n - 1], events[n - 1], CollectedBatch(run[p].l, SealAll()));
    }
  }

  ghost predicate Emptied(l: Ledger, n: nat) {
    n <= |l.records| && forall s :: 0 <= s < n ==> l.records[s].None?
  }

  ghost predicate OnDisk(t: Twin, batch: seq<Row>) {
    forall k :: 0 <= k < |batch| ==> batch[k] in t.disk
  }

  /** The records in memory among the first `m` slots are all in the batch. */
  ghost predicate Covers(l: Ledger, batch: seq<Row>, m: nat) {
    && m <= |l.records|
    && forall s :: 0 <= s < m && l.records[s].Some? ==> HasSlot(batch, s)
  }

  /** How far the seal has come with its batch, taken when there were `m` slots. */
  ghost predicate SealStands(t: Twin, batch: seq<Row>, m: nat) {
    && Covers(t.l, batch, m)
    && match t.seal
       case Holding(held) => held == batch
       case Written(held) => held == batch && OnDisk(t, batch)
       case Open => OnDisk(t, batch) && Emptied(t.l, m)
  }

  ghost predicate StaysEmptied(l: Ledger, m: Ledger) {
    && |l.records| <= |m.records|
    && forall s :: 0 <= s < |l.records| && l.records[s].None? ==> m.records[s].None?
  }

  lemma StepStaysEmptied(t: Twin, e: TwinEvent)
    requires InRange(t) && CanTake(t, e)
    ensures StaysEmptied(t.l, Take(t, e).l)
  {
    hide CommitSlots, HasSlot, CollectedBatch, Collected, Changed;
    match e
    case Change(c) => ChangedGrows(t.l, c);
    case Pick(_, isFinal) => JudgedShape(t.l, isFinal);
    case Free(who) => CommitEmpties(t.l, PhaseOf(t, who).batch, |PhaseOf(t, who).batch|);
    case _ =>
  }

  lemma FreeEmpties(l: Ledger, batch: seq<Row>, m: nat)
    requires Fits(l, batch) && Covers(l, batch, m)
    ensures Emptied(Committed(l, batch), m)
  {
    hide CommitSlots, HasSlot;
    CommitEmpties(l, batch, |batch|);
    assert batch[..|batch|] == batch;
  }

  lemma SealStandsStep(t: Twin, e: TwinEvent, batch: seq<Row>, m: nat)
    requires SealStands(t, batch, m) && InRange(t) && CanTake(t, e)
    requires PlainStep(e, false)
    ensures SealStands(Take(t, e), batch, m)
  {
    hide CollectedBatch, Collected, Committed, Changed, HasSlot, RunFinality;
    StepStaysEmptied(t, e);
    if e == Free(Seal) {
      FreeEmpties(t.l, batch, m);
    }
  }

  lemma SealStandsFirst(run: seq<Twin>, events: seq<TwinEvent>, p: nat)
    requires IsTwinRun(run, events) && SealPicksAt(events, p)
    ensures SealStands(run[p + 1], CollectedBatch(run[p].l, SealAll()), |run[p].l.records|)
  {
    hide CollectedBatch, Collected, HasSlot;
    SealTakesTheLive(run[p].l);
    JudgedShape(run[p].l, SealAll());
    EmptyBatch();
  }

  lemma {:induction false} SealStandsFrom(run: seq<Twin>, events: seq<TwinEvent>, a: nat, p: nat, n: nat)
    requires SealsOnce(run, events, a, p) && p < n < |run|
    ensures SealStands(run[n], CollectedBatch(run[p].l, SealAll()), |run[p].l.records|)
  {
    hide CollectedBatch, SealStands;
    assert StampedAt(run, events, a, p);
    if n == p + 1 {
      SealStandsFirst(run, events, p);
    } else {
      SealStandsFrom(run, events, a, p, n - 1);
      assert PlainStep(events[n - 1], false);
      hide SealsOnce, StampedAt, PlainStep, CanTake, Take, InRange;
      SealStandsStep(run[n - 1], events[n - 1], CollectedBatch(run[p].l, SealAll()), |run[p].l.records|);
    }
  }

  /** Once the seal is done: every upload on record at its pick is in the file, once or twice; and every row
      of the file is explained if and only if no track id landed between the stamp and the pick on a slot
      that no download or download error reached before the pick. */
  lemma SealedFileExplainedIff(run: seq<Twin>, events: seq<TwinEvent>, a: nat, p: nat, n: nat)
    requires SealsOnce(run, events, a, p) && p < n < |run| && run[n].seal.Open?
    ensures AllExplained(run[n].disk) <==> forall s :: !LateTrack(run, events, a, p, s)
    ensures forall s :: 0 <= s < |run[p].l.records| ==> 1 <= TimesStreamed(run[n].disk, s) <= 2
  {
    var batch, t := CollectedBatch(run[p].l, SealAll()), run[n];
    SealStandsFrom(run, events, a, p, n);
    AllRowsKnown(run, events, a, p, n);
    SealedBatchExplainedIff(run, events, a, p);
    assert InHand(run[p + 1].seal) == batch;
    hide CollectedBatch, LateTrack, SealsOnce, HasSlot, Explained, Take, CanTake;
    InTheFile(run, events, n, |run[p].l.records|);
    if AllExplained(t.disk) {
      forall k | 0 <= k < |batch| ensures Explained(batch[k].record) {
        assert batch[k] in t.disk;
      }
    }
  }

  lemma InTheFile(run: seq<Twin>, events: seq<TwinEvent>, n: nat, m: nat)
    requires IsTwinRun(run, events) && n < |run| && run[n].seal.Open? && Emptied(run[n].l, m)
    ensures forall s :: 0 <= s < m ==> 1 <= TimesStreamed(run[n].disk, s) <= 2
  {
    var t := run[n];
    TwinRunKeeps(run, events, n);
    EmptyBatch();
    hide IsTwinRun, HasSlot, TimesStreamed;
    forall s | 0 <= s < m ensures 1 <= TimesStreamed(t.disk, s) <= 2 {
      assert SlotInOrder(t, s);
      StreamedOnce(InHand(t.periodic), s);
    }
  }

  // ---------------------------------------------------------------- a run that leaves a row unexplained

  function LateEvents(r: FileRecord, code: string, id: string, at: int): seq<TwinEvent> {
    [ Change(Add(r)), Change(Stamp(code)), Change(Track(r.user, r.filename, id, at, false)),
      Pick(Seal, SealAll()), Put(Seal), Free(Seal) ]
  }

  /** An upload is recorded, the pending downloads are stamped, its track id arrives, and the seal collects,
      writes and releases: the file has an unexplained row. */
  lemma LateTrackHappens(r: FileRecord, code: string, id: string, at: int) returns (run: seq<Twin>)
    requires r.trackID == "" && r.downloadEndTime == 0 && r.downloadError == "" && code != "" && id != ""
    ensures var events := LateEvents(r, code, id, at);
            && SealsOnce(run, events, 1, 3) && LateTrack(run, events, 1, 3, 0)
            && run[6].seal.Open? && !AllExplained(run[6].disk)
  {
    run := LateRun(r, code, id, at);
    var events := LateEvents(r, code, id, at);
    hide IsTwinRun;
    LateRecord(r, code, id, at);
    assert LandsAt(run, events, 2, 0);
    SealedFileExplainedIff(run, events, 1, 3, 6);
  }

  lemma LateRun(r: FileRecord, code: string, id: string, at: int) returns (run: seq<Twin>)
    requires r.trackID == "" && r.downloadEndTime == 0 && r.downloadError == "" && id != ""
    ensures IsTwinRun(run, LateEvents(r, code, id, at)) && |run| == 7 && run[6].seal.Open?
    ensures var stamped := StampPending(Uploaded(EMPTY, r), code);
            && run[2].l == stamped && run[3].l == Tracked(stamped, r.user, r.filename, id, at, false)
  {
    hide CollectedBatch, Collected, StampPending, Tracked, Uploaded, Committed, HasSlot;
    var events := LateEvents(r, code, id, at);
    var stamped := StampPending(Uploaded(EMPTY, r), code);
    var late := START.(l := Tracked(stamped, r.user, r.filename, id, at, false));
    LateRecord(r, code, id, at);
    PickedSlots(late.l, SealAll());
    JudgedShape(late.l, SealAll());
    EmptyBatch();
    var picked := Take(late, events[3]);
    var put := Take(picked, events[4]);
    run := [START, START.(l := Uploaded(EMPTY, r)), START.(l := stamped), late, picked, put, Take(put, events[5])];
  }

  lemma LateRecord(r: FileRecord, code: string, id: string, at: int)
    requires r.trackID == "" && r.downloadEndTime == 0 && r.downloadError == "" && id != ""
    ensures var l := StampPending(Uploaded(EMPTY, r), code);
            var m := Tracked(l, r.user, r.filename, id, at, false);
            && LandsOn(l, Track(r.user, r.filename, id, at, false), 0)
            && Live(m, 0) && m.records[0].value.downloadEndTime == 0 && m.records[0].value.downloadError == ""
  {
    var l := Uploaded(EMPTY, r);
    assert l.records == [Some(r)] && Key(r) in l.byKey && l.byKey[Key(r)] == 0;
    assert StampPending(l, code).records[0] == Some(r);
  }
}
