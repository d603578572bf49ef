/** When the periodic flusher takes a record: `isRecordFinal` in terms of what happened to the record in the run,
    beside the seal and whatever else goes on. */
module FlushRules {

  import opened Collections
  import opened TrackedNames
  import opened Ledger
  import opened LedgerRuns
  import opened SealRuns
  import opened SealedRows

  /** Whether the run has a download phase, and how long a download may take after the track id. */
  datatype Policy = Policy(downloads: bool, grace: int)

  const TIMED_OUT := "DOWNLOAD_TIMEOUT_LOCAL"

  /** What the runner's own steps respect; `now` is the clock at the step. */
  ghost predicate Honest(e: TwinEvent, policy: Policy, now: int) {
    match e
    case Change(Add(r)) => r.trackID == "" && r.downloadEndTime == 0 && r.downloadError == ""
    case Change(Track(_, _, id, at, out)) => (id != "" || out) && at != 0
    case Change(Attach(_, d)) => d.endTime != 0
    case Pick(Periodic, isFinal) => isFinal == IsRecordFinal(policy.downloads, policy.grace, now)
    case Pick(Seal, isFinal) => isFinal == SealAll()
    case _ => true
  }

  ghost predicate IsRunnerRun(run: seq<Twin>, events: seq<TwinEvent>, policy: Policy, clock: seq<int>) {
    && IsTwinRun(run, events) && |clock| == |events|
    && forall i :: 0 <= i < |events| ==> Honest(events[i], policy, clock[i])
  }

  // ---------------------------------------------------------------- what happened to a slot

  predicate DownloadLands(l: Ledger, e: Event, s: nat) {
    e.Attach? && Find(l, e.via) == Some(s) && Live(l, s)
  }

  predicate FailedHere(l: Ledger, e: Event, s: nat) {
    e.Add? && s == |l.records| && e.r.errorCode != ""
  }

  /** When the last track id landed on slot `s` before event `n`, by the time it carries. */
  ghost function LastTrack(run: seq<Twin>, events: seq<TwinEvent>, s: nat, n: nat): Option<int>
    requires n <= |events| < |run|
  {
    if n == 0 then None
    else if events[n - 1].Change? && LandsOn(run[n - 1].l, events[n - 1].e, s) then Some(events[n - 1].e.at)
    else LastTrack(run, events, s, n - 1)
  }

  ghost predicate Downloaded(run: seq<Twin>, events: seq<TwinEvent>, s: nat, n: nat)
    requires n <= |events| < |run|
  {
    n > 0 && (Downloaded(run, events, s, n - 1)
              || (events[n - 1].Change? && DownloadLands(run[n - 1].l, events[n - 1].e, s)))
  }

  /** The upload of slot `s` was recorded as a failure. */
  ghost predicate Failed(run: seq<Twin>, events: seq<TwinEvent>, s: nat, n: nat)
    requires n <= |events| < |run|
  {
    n > 0 && (Failed(run, events, s, n - 1)
              || (events[n - 1].Change? && FailedHere(run[n - 1].l, events[n - 1].e, s)))
  }

  /** What the record of a slot tells about its past. */
  ghost predicate Tells(l: Ledger, s: nat, tracked: Option<int>, downloaded: bool, failed: bool) {
    if s >= |l.records| then tracked.None? && !downloaded && !failed
    else if l.records[s].None? then true
    else
      var r := l.records[s].value;
      && (r.trackID != "" <==> tracked.Some?) && (tracked.Some? ==> tracked.value != 0 && r.trackIDAt == tracked.value)
      && (r.downloadEndTime != 0 <==> downloaded)
      && (tracked.None? ==> (r.errorCode != "" <==> failed))
  }

  lemma ChangeTells(l: Ledger, e: Event, s: nat, tracked: Option<int>, downloaded: bool, failed: bool,
                    policy: Policy, now: int)
    requires Tells(l, s, tracked, downloaded, failed) && Honest(Change(e), policy, now)
    ensures Tells(Changed(l, e), s, if LandsOn(l, e, s) then Some(e.at) else tracked,
                  downloaded || DownloadLands(l, e, s), failed || FailedHere(l, e, s))
  {
  }

  lemma StepTells(t: Twin, e: TwinEvent, s: nat, tracked: Option<int>, downloaded: bool, failed: bool,
                  policy: Policy, now: int)
    requires Tells(t.l, s, tracked, downloaded, failed) && Honest(e, policy, now) && CanTake(t, e) && InRange(t)
    requires !e.Change?
    ensures Tells(Take(t, e).l, s, tracked, downloaded, failed)
  {
    hide CommitSlots, HasSlot, CollectedBatch;
    match e
    case Free(who) => CommitEmpties(t.l, PhaseOf(t, who).batch, |PhaseOf(t, who).batch|);
    case _ =>
  }

  lemma {:induction false} HistoryTells(run: seq<Twin>, events: seq<TwinEvent>, policy: Policy, clock: seq<int>, n: nat, s: nat)
    requires IsRunnerRun(run, events, policy, clock) && n < |run|
    ensures Tells(run[n].l, s, LastTrack(run, events, s, n), Downloaded(run, events, s, n), Failed(run, events, s, n))
  {
    if n > 0 {
      HistoryTells(run, events, policy, clock, n - 1, s);
      hide Tells, LandsOn, DownloadLands, FailedHere, Changed;
      var l, e := run[n - 1].l, events[n - 1];
      var tracked, downloaded, failed := LastTrack(run, events, s, n - 1), Downloaded(run, events, s, n - 1),
                                         Failed(run, events, s, n - 1);
      if e.Change? {
        ChangeTells(l, e.e, s, tracked, downloaded, failed, policy, clock[n - 1]);
      } else {
        StepTells(run[n - 1], e, s, tracked, downloaded, failed, policy, clock[n - 1]);
      }
    }
  }

  // ---------------------------------------------------------------- who is taken, and when

  /** A track id landed, no download has, and the window for one has passed at the clock of event `n`. */
  ghost predicate WindowPassed(run: seq<Twin>, events: seq<TwinEvent>, policy: Policy, clock: seq<int>, s: nat, n: nat)
    requires n < |events| < |run| && |clock| == |events|
  {
    && policy.downloads && !Downloaded(run, events, s, n)
    && LastTrack(run, events, s, n).Some? && clock[n] - LastTrack(run, events, s, n).value > policy.grace
  }

  /** Nothing more is to be expected for slot `s` at event `n`: its upload failed and it has no track id, or it has
      one and its download ended, or can no longer be waited for, or there is no download phase. */
  ghost predicate Settled(run: seq<Twin>, events: seq<TwinEvent>, policy: Policy, clock: seq<int>, s: nat, n: nat)
    requires n < |events| < |run| && |clock| == |events|
  {
    if LastTrack(run, events, s, n).None? then Failed(run, events, s, n)
    else !policy.downloads || Downloaded(run, events, s, n) || WindowPassed(run, events, policy, clock, s, n)
  }

  ghost predicate Flushes(events: seq<TwinEvent>, n: nat) {
    n < |events| && events[n].Pick? && events[n].who == Periodic
  }

  /** Over every run: a periodic flush takes a record if and only if it is in memory and settled. */
  lemma TakenIffSettled(run: seq<Twin>, events: seq<TwinEvent>, policy: Policy, clock: seq<int>, n: nat, s: nat)
    requires IsRunnerRun(run, events, policy, clock) && Flushes(events, n)
    ensures HasSlot(CollectedBatch(run[n].l, events[n].isFinal), s)
            <==> Live(run[n].l, s) && Settled(run, events, policy, clock, s, n)
  {
    HistoryTells(run, events, policy, clock, n, s);
    PickedSlots(run[n].l, events[n].isFinal);
    assert Honest(events[n], policy, clock[n]);
    hide IsTwinRun, LastTrack, Downloaded, Failed, CollectedBatch;
    if HasSlot(CollectedBatch(run[n].l, events[n].isFinal), s) {
      var k :| 0 <= k < |CollectedBatch(run[n].l, events[n].isFinal)| && CollectedBatch(run[n].l, events[n].isFinal)[k].slot == s;
    }
  }

  /** And it marks a record as timed out if and only if its window has passed and nothing explains it yet; it
      changes nothing else of any record. */
  lemma MarkedIffPassed(run: seq<Twin>, events: seq<TwinEvent>, policy: Policy, clock: seq<int>, n: nat, s: nat)
    requires IsRunnerRun(run, events, policy, clock) && Flushes(events, n) && Live(run[n].l, s)
    ensures var r := run[n].l.records[s].value;
            Live(run[n + 1].l, s) && run[n + 1].l.records[s].value
            == if WindowPassed(run, events, policy, clock, s, n) && r.downloadError == ""
               then r.(downloadError := TIMED_OUT) else r
  {
    HistoryTells(run, events, policy, clock, n, s);
    assert Honest(events[n], policy, clock[n]);
    hide LastTrack, Downloaded, Failed, CollectedBatch;
    assert run[n + 1].l == Collected(run[n].l, events[n].isFinal);
  }

  // ---------------------------------------------------------------- timed-out rows

  /** Event `i` is why slot `s` says its download timed out: a flush after its window, a stamp, or a download that
      reported just that. */
  ghost predicate Reason(run: seq<Twin>, events: seq<TwinEvent>, policy: Policy, clock: seq<int>, s: nat, i: int)
    requires |events| < |run| && |clock| == |events|
  {
    && 0 <= i < |events|
    && match events[i]
       case Pick(Periodic, _) => WindowPassed(run, events, policy, clock, s, i)
       case Change(Stamp(code)) => code == TIMED_OUT
       case Change(Attach(via, d)) => DownloadLands(run[i].l, Attach(via, d), s) && d.error == TIMED_OUT
       case _ => false
  }

  ghost predicate HasReason(run: seq<Twin>, events: seq<TwinEvent>, policy: Policy, clock: seq<int>, s: nat, n: int)
    requires |events| < |run| && |clock| == |events|
  {
    exists i :: i < n && Reason(run, events, policy, clock, s, i)
  }

  ghost predicate SaysTimedOut(l: Ledger, s: nat) {
    Live(l, s) && l.records[s].value.downloadError == TIMED_OUT
  }

  lemma ChangeSays(l: Ledger, e: Event, s: nat, policy: Policy, now: int)
    requires SaysTimedOut(Changed(l, e), s) && Honest(Change(e), policy, now)
    ensures SaysTimedOut(l, s) || e == Stamp(TIMED_OUT) || (DownloadLands(l, e, s) && e.d.error == TIMED_OUT)
  {
    assert TIMED_OUT[0] == 'D' && "HASH_MISMATCH"[0] == 'H';
  }

  lemma ChangeIsReason(run: seq<Twin>, events: seq<TwinEvent>, policy: Policy, clock: seq<int>, n: nat, s: nat)
    requires IsRunnerRun(run, events, policy, clock) && n < |events| && events[n].Change?
    requires SaysTimedOut(run[n + 1].l, s) && !SaysTimedOut(run[n].l, s)
    ensures Reason(run, events, policy, clock, s, n)
  {
    var l, e := run[n].l, events[n].e;
    assert Honest(events[n], policy, clock[n]) && run[n + 1].l == Changed(l, e) && events[n] == Change(e);
    ChangeSays(l, e, s, policy, clock[n]);
    hide IsRunnerRun, Changed, DownloadLands, Honest, SaysTimedOut;
    if e.Attach? {
      assert e == Attach(e.via, e.d);
    }
  }

  lemma StepSays(run: seq<Twin>, events: seq<TwinEvent>, policy: Policy, clock: seq<int>, n: nat, s: nat)
    requires IsRunnerRun(run, events, policy, clock) && n < |events| && SaysTimedOut(run[n + 1].l, s)
    ensures SaysTimedOut(run[n].l, s) || Reason(run, events, policy, clock, s, n)
  {
    hide LastTrack, Downloaded, Failed, CollectedBatch, CommitSlots, HasSlot, Changed, LandsOn, DownloadLands;
    var t := run[n];
    assert Honest(events[n], policy, clock[n]);
    match events[n]
    case Change(e) =>
      if !SaysTimedOut(t.l, s) {
        ChangeIsReason(run, events, policy, clock, n, s);
      }
    case Pick(who, isFinal) =>
      if who == Periodic && Live(t.l, s) {
        MarkedIffPassed(run, events, policy, clock, n, s);
      }
    case Free(who) => CommitEmpties(t.l, PhaseOf(t, who).batch, |PhaseOf(t, who).batch|);
    case _ =>
  }

  /** Whatever is in memory and says its download timed out has been through an event that explains it. */
  lemma {:induction false} TimeoutsAreExplained(run: seq<Twin>, events: seq<TwinEvent>, policy: Policy, clock: seq<int>,
                                               n: nat, s: nat)
    requires IsRunnerRun(run, events, policy, clock) && n < |run| && SaysTimedOut(run[n].l, s)
    ensures HasReason(run, events, policy, clock, s, n)
  {
    if n > 0 {
      hide Reason, Honest;
      StepSays(run, events, policy, clock, n - 1, s);
      if SaysTimedOut(run[n - 1].l, s) {
        TimeoutsAreExplained(run, events, policy, clock, n - 1, s);
      }
    }
  }

  /** The row is its slot's record as some state up to `n` had it. */
  ghost predicate Shown(run: seq<Twin>, row: Row, n: int) {
    exists i :: 0 <= i <= n && i < |run| && IsRecord(run[i].l, row)
  }

  predicate IsRecord(l: Ledger, row: Row) {
    Live(l, row.slot) && l.records[row.slot].value == row.record
  }

  ghost predicate AllShown(run: seq<Twin>, rows: seq<Row>, n: int) {
    forall k :: 0 <= k < |rows| ==> Shown(run, rows[k], n)
  }

  lemma PickedShown(run: seq<Twin>, events: seq<TwinEvent>, n: nat)
    requires IsTwinRun(run, events) && n < |events| && events[n].Pick?
    ensures AllShown(run, CollectedBatch(run[n].l, events[n].isFinal), n + 1)
  {
    var records, isFinal := run[n].l.records, events[n].isFinal;
    var batch := CollectedBatch(run[n].l, isFinal);
    BatchMeaning(records, |records|, isFinal);
    forall k | 0 <= k < |batch| ensures Shown(run, batch[k], n + 1) {
      assert FromSlot(records, isFinal, batch[k]);
      assert IsRecord(run[n + 1].l, batch[k]);
    }
  }

  lemma {:induction false} RowsAreShown(run: seq<Twin>, events: seq<TwinEvent>, n: nat)
    requires IsTwinRun(run, events) && n < |run|
    ensures AllShown(run, run[n].disk, n)
    ensures AllShown(run, InHand(run[n].periodic), n) && AllShown(run, InHand(run[n].seal), n)
  {
    hide AllShown, CanTake, Take, InRange, CollectedBatch;
    if n == 0 {
      NoneShown(run);
    } else {
      RowsAreShown(run, events, n - 1);
      var t, e := run[n - 1], events[n - 1];
      ShownLater(run, t.disk, n);
      ShownLater(run, InHand(t.periodic), n);
      ShownLater(run, InHand(t.seal), n);
      if e.Pick? {
        PickedShown(run, events, n - 1);
      }
      StepShows(run, t, e, n);
    }
  }

  lemma NoneShown(run: seq<Twin>)
    ensures AllShown(run, [], 0)
  {
  }

  lemma StepShows(run: seq<Twin>, t: Twin, e: TwinEvent, n: int)
    requires InRange(t) && CanTake(t, e)
    requires AllShown(run, t.disk, n) && AllShown(run, InHand(t.periodic), n) && AllShown(run, InHand(t.seal), n)
    requires e.Pick? ==> AllShown(run, CollectedBatch(t.l, e.isFinal), n)
    ensures AllShown(run, Take(t, e).disk, n)
    ensures AllShown(run, InHand(Take(t, e).periodic), n) && AllShown(run, InHand(Take(t, e).seal), n)
  {
    hide CollectedBatch, Collected, Changed, Committed, Shown;
  }

  lemma ShownLater(run: seq<Twin>, rows: seq<Row>, n: int)
    requires AllShown(run, rows, n - 1)
    ensures AllShown(run, rows, n)
  {
    forall k | 0 <= k < |rows| ensures Shown(run, rows[k], n) {
      assert Shown(run, rows[k], n - 1);
    }
  }

  /** Every row of the file that says its download timed out has a reason: a flush found the window passed, the seal
      stamped it, or a download reported it. */
  lemma TimedOutRowsHaveReasons(run: seq<Twin>, events: seq<TwinEvent>, policy: Policy, clock: seq<int>, n: nat, k: nat)
    requires IsRunnerRun(run, events, policy, clock) && n < |run| && k < |run[n].disk|
    requires run[n].disk[k].record.downloadError == TIMED_OUT
    ensures HasReason(run, events, policy, clock, run[n].disk[k].slot, n)
  {
    RowsAreShown(run, events, n);
    var row := run[n].disk[k];
    assert Shown(run, row, n);
    var i :| 0 <= i <= n && i < |run| && IsRecord(run[i].l, row);
    hide Reason, IsRunnerRun;
    TimeoutsAreExplained(run, events, policy, clock, i, row.slot);
  }
}
