/** Two flushers on one ledger: the periodic one and the one that seals the run and then closes the file,
    which the runner does not keep apart. Each collects, writes and releases in its own time. */
module SealRuns {

  import opened Collections
  import opened Ledger
  import opened LedgerRuns

  datatype Who = Periodic | Seal

  /** `again` are the slots that one flusher picked while the other held them, unless one of the two
      batches could not be written. */
  datatype Twin = Twin(l: Ledger, periodic: Phase, seal: Phase, closed: bool, disk: seq<Row>, again: set<nat>)

  datatype TwinEvent =
    | Change(e: Event)
    | Pick(who: Who, isFinal: Finality)
    | Put(who: Who)
    | Fail(who: Who)
    | Free(who: Who)
    | Close

  const START := Twin(EMPTY, Open, Open, false, [], {})

  function PhaseOf(t: Twin, who: Who): Phase {
    if who == Periodic then t.periodic else t.seal
  }

  function Other(who: Who): Who {
    if who == Periodic then Seal else Periodic
  }

  function WithPhase(t: Twin, who: Who, p: Phase): Twin {
    if who == Periodic then t.(periodic := p) else t.(seal := p)
  }

  /** What an upload, a track id, a download or a stamp does to the ledger. */
  function Changed(l: Ledger, e: Event): Ledger {
    match e
    case Add(r) => Uploaded(l, r)
    case Track(u, f, id, at, out) => Tracked(l, u, f, id, at, out)
    case Attach(via, d) => Downloaded(l, via, d)
    case Stamp(code) => StampPending(l, code)
    case _ => l
  }

  /** The seal closes the file when its own flush is over; from then on every write fails. */
  predicate CanTake(t: Twin, e: TwinEvent) {
    match e
    case Change(_) => true
    case Pick(who, _) => PhaseOf(t, who).Open? && (who == Seal ==> !t.closed)
    case Put(who) => PhaseOf(t, who).Holding? && !t.closed
    case Fail(who) => PhaseOf(t, who).Holding?
    case Free(who) => PhaseOf(t, who).Written?
    case Close => t.seal.Open?
  }

  ghost predicate Fits(l: Ledger, batch: seq<Row>) {
    forall k :: 0 <= k < |batch| ==> batch[k].slot < |l.records|
  }

  ghost predicate InRange(t: Twin) {
    Fits(t.l, InHand(t.periodic)) && Fits(t.l, InHand(t.seal))
  }

  /** The slots that `batch` shares with what the other flusher has in hand. */
  ghost function Shared(t: Twin, who: Who, batch: seq<Row>): set<nat> {
    set s: nat | s < |t.l.records| && HasSlot(batch, s) && HasSlot(InHand(PhaseOf(t, Other(who))), s)
  }

  function SlotsOf(batch: seq<Row>): set<nat> {
    set k | 0 <= k < |batch| :: batch[k].slot
  }

  ghost function Take(t: Twin, e: TwinEvent): Twin
    requires CanTake(t, e) && InRange(t)
  {
    match e
    case Change(c) => t.(l := Changed(t.l, c))
    case Pick(who, isFinal) =>
      var batch := CollectedBatch(t.l, isFinal);
      WithPhase(t, who, if batch == [] then Open else Holding(batch))
        .(l := Collected(t.l, isFinal), again := t.again + Shared(t, who, batch))
    case Put(who) =>
      WithPhase(t, who, Written(PhaseOf(t, who).batch)).(disk := t.disk + PhaseOf(t, who).batch)
    case Fail(who) =>
      WithPhase(t, who, Open).(again := t.again - SlotsOf(PhaseOf(t, who).batch))
    case Free(who) =>
      WithPhase(t, who, Open).(l := Committed(t.l, PhaseOf(t, who).batch))
    case Close => t.(closed := true)
  }

  ghost predicate IsTwinRun(run: seq<Twin>, events: seq<TwinEvent>) {
    && |run| == |events| + 1 && run[0] == START
    && forall i :: 0 <= i < |events| ==>
         InRange(run[i]) && CanTake(run[i], events[i]) && run[i + 1] == Take(run[i], events[i])
  }

  // ---------------------------------------------------------------- the books

  /** Rows of slot `s` that the flusher has picked and not yet written. */
  function Unwritten(p: Phase, s: nat): nat {
    if p.Holding? then TimesStreamed(p.batch, s) else 0
  }

  ghost predicate InHands(t: Twin, who: Who, s: nat) {
    HasSlot(InHand(PhaseOf(t, who)), s)
  }

  /** How often slot `s` has been picked. */
  ghost function Picks(t: Twin, s: nat): nat
    requires s < |t.l.records|
  {
    if s in t.again then 2
    else if t.l.records[s].None? || InHands(t, Periodic, s) || InHands(t, Seal, s) then 1
    else 0
  }

  ghost predicate SlotInOrder(t: Twin, s: nat)
    requires s < |t.l.records|
  {
    && TimesStreamed(t.disk, s) + Unwritten(t.periodic, s) + Unwritten(t.seal, s) == Picks(t, s)
    && (t.l.records[s].Some? ==> (s in t.again <==> InHands(t, Periodic, s) && InHands(t, Seal, s)))
    && (t.l.records[s].None? && InHands(t, Periodic, s) ==> s in t.again && !InHands(t, Seal, s))
    && (t.l.records[s].None? && InHands(t, Seal, s) ==> s in t.again)
  }

  ghost predicate Bounded(t: Twin) {
    && InRange(t) && DistinctSlots(InHand(t.periodic)) && DistinctSlots(InHand(t.seal))
    && Fits(t.l, t.disk)
    && (forall s :: s in t.again ==> s < |t.l.records|)
  }

  /** Rows written and not yet counted as flushed. */
  function Uncounted(p: Phase): nat {
    if p.Written? then |p.batch| else 0
  }

  ghost predicate TwinInv(t: Twin) {
    && Bounded(t)
    && (forall s :: 0 <= s < |t.l.records| ==> SlotInOrder(t, s))
    && t.l.flushed + Uncounted(t.periodic) + Uncounted(t.seal) == |t.disk|
  }

  // ---------------------------------------------------------------- every step keeps them

  ghost predicate Grown(l: Ledger, m: Ledger) {
    && |l.records| <= |m.records| && l.flushed == m.flushed
    && (forall s :: 0 <= s < |l.records| ==> (m.records[s].Some? <==> l.records[s].Some?))
    && (forall s :: |l.records| <= s < |m.records| ==> m.records[s].Some?)
  }

  lemma ChangedGrows(l: Ledger, e: Event)
    ensures Grown(l, Changed(l, e))
  {
    hide WithDownload, WithTrackID, Stamped;
  }

  lemma {:induction false} NoneStreamed(rows: seq<Row>, s: nat)
    requires forall k :: 0 <= k < |rows| ==> rows[k].slot != s
    ensures TimesStreamed(rows, s) == 0 && !HasSlot(rows, s)
  {
    if rows != [] {
      NoneStreamed(rows[..|rows| - 1], s);
    }
  }

  lemma ChangeKeeps(t: Twin, m: Ledger)
    requires TwinInv(t) && Grown(t.l, m)
    ensures TwinInv(t.(l := m))
  {
    hide TimesStreamed, HasSlot;
    var u := t.(l := m);
    forall s | 0 <= s < |m.records| ensures SlotInOrder(u, s) {
      if s < |t.l.records| {
        assert SlotInOrder(t, s);
      } else {
        assert InHand(PhaseOf(t, Periodic)) == InHand(t.periodic) && InHand(PhaseOf(t, Seal)) == InHand(t.seal);
        NoneStreamed(t.disk, s);
        NoneStreamed(InHand(t.periodic), s);
        NoneStreamed(InHand(t.seal), s);
      }
    }
  }

  lemma PickedSlots(l: Ledger, isFinal: Finality)
    ensures DistinctSlots(CollectedBatch(l, isFinal))
    ensures Fits(l, CollectedBatch(l, isFinal))
    ensures forall s :: 0 <= s < |l.records| ==>
              (HasSlot(CollectedBatch(l, isFinal), s) <==> l.records[s].Some? && isFinal(l.records[s].value).0)
    ensures forall s :: 0 <= s < |l.records| ==>
              TimesStreamed(CollectedBatch(l, isFinal), s) == if l.records[s].Some? && isFinal(l.records[s].value).0 then 1 else 0
  {
    hide HasSlot, TimesStreamed;
    BatchMeaning(l.records, |l.records|, isFinal);
    forall s | 0 <= s < |l.records|
      ensures TimesStreamed(CollectedBatch(l, isFinal), s) == if HasSlot(CollectedBatch(l, isFinal), s) then 1 else 0
    {
      StreamedOnce(CollectedBatch(l, isFinal), s);
    }
  }

  lemma PickKeeps(t: Twin, who: Who, isFinal: Finality)
    requires TwinInv(t) && CanTake(t, Pick(who, isFinal))
    ensures TwinInv(Take(t, Pick(who, isFinal)))
  {
    hide HasSlot, TimesStreamed, CollectedBatch, Collected;
    var batch, u := CollectedBatch(t.l, isFinal), Take(t, Pick(who, isFinal));
    PickedSlots(t.l, isFinal);
    JudgedShape(t.l, isFinal);
    EmptyBatch();
    assert InHand(PhaseOf(u, who)) == batch && InHand(PhaseOf(u, Other(who))) == InHand(PhaseOf(t, Other(who)));
    forall s | 0 <= s < |u.l.records| ensures SlotInOrder(u, s) {
      assert SlotInOrder(t, s);
      assert s in u.again <==> s in t.again || (HasSlot(batch, s) && InHands(t, Other(who), s));
    }
  }

  lemma JudgedShape(l: Ledger, isFinal: Finality)
    ensures |Collected(l, isFinal).records| == |l.records| && Collected(l, isFinal).flushed == l.flushed
    ensures forall s :: 0 <= s < |l.records| ==> (Collected(l, isFinal).records[s].Some? <==> l.records[s].Some?)
  {
  }

  lemma EmptyBatch()
    ensures forall s: nat :: !HasSlot([], s) && TimesStreamed([], s) == 0
  {
  }

  lemma PutKeeps(t: Twin, who: Who)
    requires TwinInv(t) && CanTake(t, Put(who))
    ensures TwinInv(Take(t, Put(who)))
  {
    hide HasSlot, TimesStreamed;
    var batch, u := PhaseOf(t, who).batch, Take(t, Put(who));
    assert InHand(PhaseOf(t, who)) == batch == InHand(PhaseOf(u, who));
    assert InHand(PhaseOf(u, Other(who))) == InHand(PhaseOf(t, Other(who)));
    forall s | 0 <= s < |u.l.records| ensures SlotInOrder(u, s) {
      assert SlotInOrder(t, s);
      StreamedInTwo(t.disk, batch, s);
    }
  }

  lemma FailKeeps(t: Twin, who: Who)
    requires TwinInv(t) && CanTake(t, Fail(who))
    ensures TwinInv(Take(t, Fail(who)))
  {
    hide HasSlot, TimesStreamed, SlotsOf;
    var batch, u := PhaseOf(t, who).batch, Take(t, Fail(who));
    assert InHand(PhaseOf(t, who)) == batch && InHand(PhaseOf(u, who)) == [];
    assert InHand(PhaseOf(u, Other(who))) == InHand(PhaseOf(t, Other(who)));
    EmptyBatch();
    forall s | 0 <= s < |u.l.records| ensures SlotInOrder(u, s) {
      assert SlotInOrder(t, s);
      StreamedOnce(batch, s);
      InSlotsOf(batch, s);
    }
  }

  lemma InSlotsOf(batch: seq<Row>, s: nat)
    ensures s in SlotsOf(batch) <==> HasSlot(batch, s)
  {
  }

  /** A commit empties the batch's slots, those still in memory, and counts the whole batch. */
  lemma {:induction false} CommitEmpties(l: Ledger, batch: seq<Row>, n: nat)
    requires n <= |batch| && forall k :: 0 <= k < |batch| ==> batch[k].slot < |l.records|
    ensures var m := CommitSlots(l, batch, n);
            && |m.records| == |l.records| && m.flushed == l.flushed
            && forall s :: 0 <= s < |l.records| ==> m.records[s] == if HasSlot(batch[..n], s) then None else l.records[s]
  {
    if n > 0 {
      CommitEmpties(l, batch, n - 1);
      assert batch[..n] == batch[..n - 1] + [batch[n - 1]];
      forall s: nat ensures HasSlot(batch[..n], s) <==> HasSlot(batch[..n - 1], s) || s == batch[n - 1].slot {
        HasSlotSplit(batch[..n - 1], [batch[n - 1]], s);
        assert HasSlot([batch[n - 1]], s) <==> [batch[n - 1]][0].slot == s;
      }
    }
  }

  lemma FreeKeeps(t: Twin, who: Who)
    requires TwinInv(t) && CanTake(t, Free(who))
    ensures TwinInv(Take(t, Free(who)))
  {
    hide HasSlot, TimesStreamed, CommitSlots;
    var batch, u := PhaseOf(t, who).batch, Take(t, Free(who));
    assert InHand(PhaseOf(t, who)) == batch && InHand(PhaseOf(u, who)) == [];
    assert InHand(PhaseOf(u, Other(who))) == InHand(PhaseOf(t, Other(who)));
    CommitEmpties(t.l, batch, |batch|);
    assert batch[..|batch|] == batch;
    EmptyBatch();
    forall s | 0 <= s < |u.l.records| ensures SlotInOrder(u, s) {
      assert SlotInOrder(t, s);
    }
  }

  lemma CloseKeeps(t: Twin)
    requires TwinInv(t)
    ensures TwinInv(t.(closed := true))
  {
    hide TimesStreamed, HasSlot;
    forall s | 0 <= s < |t.l.records| ensures SlotInOrder(t.(closed := true), s) {
      assert SlotInOrder(t, s);
    }
  }

  lemma TwinStepKeeps(t: Twin, e: TwinEvent)
    requires TwinInv(t) && CanTake(t, e)
    ensures TwinInv(Take(t, e))
  {
    hide TwinInv;
    match e
    case Change(c) =>
      ChangedGrows(t.l, c);
      ChangeKeeps(t, Changed(t.l, c));
    case Pick(who, isFinal) => PickKeeps(t, who, isFinal);
    case Put(who) => PutKeeps(t, who);
    case Fail(who) => FailKeeps(t, who);
    case Free(who) => FreeKeeps(t, who);
    case Close => CloseKeeps(t);
  }

  lemma {:induction false} TwinRunKeeps(run: seq<Twin>, events: seq<TwinEvent>, n: nat)
    requires IsTwinRun(run, events) && n < |run|
    ensures TwinInv(run[n])
  {
    if n > 0 {
      hide Take, CanTake, TwinInv;
      TwinRunKeeps(run, events, n - 1);
      TwinStepKeeps(run[n - 1], events[n - 1]);
    }
  }

  // ---------------------------------------------------------------- what ends up in the file

  /** Event `j` picks slot `s` while the other flusher has it in hand. */
  ghost predicate PickedWhileHeld(run: seq<Twin>, events: seq<TwinEvent>, s: nat, j: int) {
    && 0 <= j < |events| && j < |run| && events[j].Pick? && s < |run[j].l.records|
    && run[j].l.records[s].Some? && events[j].isFinal(run[j].l.records[s].value).0
    && InHands(run[j], Other(events[j].who), s)
  }

  /** Event `k` is the failed write of a batch with slot `s`. */
  ghost predicate FailedWith(run: seq<Twin>, events: seq<TwinEvent>, s: nat, k: int) {
    0 <= k < |events| && k < |run| && events[k].Fail? && InHands(run[k], events[k].who, s)
  }

  /** One flusher picked slot `s` while the other held it, and neither of the two batches failed. */
  ghost predicate Overlapped(run: seq<Twin>, events: seq<TwinEvent>, s: nat, n: int) {
    exists j :: j < n && PickedWhileHeld(run, events, s, j) && NoneFailed(run, events, s, j, n)
  }

  ghost predicate NoneFailed(run: seq<Twin>, events: seq<TwinEvent>, s: nat, j: int, n: int) {
    forall k :: j < k < n ==> !FailedWith(run, events, s, k)
  }

  lemma {:induction false} AgainIsOverlapped(run: seq<Twin>, events: seq<TwinEvent>, s: nat, n: nat)
    requires IsTwinRun(run, events) && n < |run|
    ensures s in run[n].again <==> Overlapped(run, events, s, n)
  {
    hide PickedWhileHeld, FailedWith;
    if n > 0 {
      hide Overlapped, CanTake, Take, InRange;
      AgainIsOverlapped(run, events, s, n - 1);
      AgainAfter(run, events, s, n - 1);
      OverlappedLater(run, events, s, n);
    } else {
      assert forall j :: PickedWhileHeld(run, events, s, j) ==> 0 <= j by { AfterTheStart(run, events, s); }
    }
  }

  lemma AfterTheStart(run: seq<Twin>, events: seq<TwinEvent>, s: nat)
    ensures forall j :: PickedWhileHeld(run, events, s, j) ==> 0 <= j
  {
  }

  lemma OverlappedLater(run: seq<Twin>, events: seq<TwinEvent>, s: nat, n: nat)
    requires n > 0
    ensures Overlapped(run, events, s, n)
            <==> PickedWhileHeld(run, events, s, n - 1)
                 || (Overlapped(run, events, s, n - 1) && !FailedWith(run, events, s, n - 1))
  {
    hide PickedWhileHeld, FailedWith;
    if PickedWhileHeld(run, events, s, n - 1) {
      assert NoneFailed(run, events, s, n - 1, n);
    }
    if Overlapped(run, events, s, n - 1) && !FailedWith(run, events, s, n - 1) {
      var j :| j < n - 1 && PickedWhileHeld(run, events, s, j) && NoneFailed(run, events, s, j, n - 1);
      assert NoneFailed(run, events, s, j, n);
    }
    if j :| j < n - 1 && PickedWhileHeld(run, events, s, j) && NoneFailed(run, events, s, j, n) {
      assert NoneFailed(run, events, s, j, n - 1);
    }
  }

  lemma AgainAfter(run: seq<Twin>, events: seq<TwinEvent>, s: nat, i: nat)
    requires IsTwinRun(run, events) && i < |events|
    ensures s in run[i + 1].again
            <==> PickedWhileHeld(run, events, s, i) || (s in run[i].again && !FailedWith(run, events, s, i))
  {
    hide CollectedBatch, HasSlot, SlotsOf;
    var t, e := run[i], events[i];
    if e.Pick? {
      PickedSlots(t.l, e.isFinal);
    }
    if e.Fail? {
      InSlotsOf(PhaseOf(t, e.who).batch, s);
    }
  }

  /** Over every run of the two flushers, once both are idle: a slot still in memory has no row, so a failed
      write loses nothing, and a released one has two rows if and only if one flusher picked it while the
      other held it and both batches were written, and one row otherwise. The flushed count exceeds the
      uploads released by exactly the slots with two rows. */
  lemma StreamedTwiceIff(run: seq<Twin>, events: seq<TwinEvent>, n: nat)
    requires IsTwinRun(run, events) && n < |run| && run[n].periodic.Open? && run[n].seal.Open?
    ensures var t := run[n];
            && (forall s :: 0 <= s < |t.l.records| ==>
                  TimesStreamed(t.disk, s) == if t.l.records[s].Some? then 0 else if Overlapped(run, events, s, n) then 2 else 1)
            && t.l.flushed == |t.disk|
            && t.l.flushed + |LiveRecords(t.l.records, |t.l.records|)| == |t.l.records| + |t.again|
            && forall s: nat :: s in t.again <==> Overlapped(run, events, s, n)
  {
    hide Overlapped, TimesStreamed;
    TwinRunKeeps(run, events, n);
    EmptyBatch();
    var t := run[n];
    forall s: nat ensures s in t.again <==> Overlapped(run, events, s, n) {
      AgainIsOverlapped(run, events, s, n);
    }
    forall s | 0 <= s < |t.l.records|
      ensures TimesStreamed(t.disk, s) == if t.l.records[s].Some? then 0 else if s in t.again then 2 else 1
      ensures t.l.records[s].Some? ==> s !in t.again
    {
      assert SlotInOrder(t, s);
    }
    TotalIsAll(t.disk, |t.l.records|);
    TotalByCase(t, |t.l.records|);
  }

  /** In particular, whatever the periodic flusher still had to write when the file was closed has one row at
      most: that write must fail, and from then on neither flusher finds the other at work. */
  lemma HeldAtCloseNotTwice(run: seq<Twin>, events: seq<TwinEvent>, c: nat, s: nat, n: nat)
    requires IsTwinRun(run, events) && c <= n < |run| && run[c].closed
    requires run[c].periodic.Holding? && InHands(run[c], Periodic, s)
    requires run[n].periodic.Open? && s < |run[n].l.records|
    ensures TimesStreamed(run[n].disk, s) == if run[n].l.records[s].Some? then 0 else 1
  {
    var k := FailureAfterClose(run, events, c, s, n);
    ClosedIsIdle(run, events, c, n);
    assert !Overlapped(run, events, s, n) by {
      forall j | j < n && PickedWhileHeld(run, events, s, j) ensures !NoneFailed(run, events, s, j, n) {
        if j >= c {
          ClosedIsIdle(run, events, c, j);
          EmptyBatch();
        }
      }
    }
    hide IsTwinRun, Overlapped, TimesStreamed;
    StreamedTwiceIff(run, events, n);
  }

  /** Nothing reopens the file, and the seal, which closed it, picks no more. */
  lemma {:induction false} ClosedIsIdle(run: seq<Twin>, events: seq<TwinEvent>, c: nat, n: nat)
    requires IsTwinRun(run, events) && c <= n < |run| && run[c].closed
    ensures run[n].closed && run[n].seal.Open?
    decreases n
  {
    hide Committed, Collected, Changed, CollectedBatch, SlotsOf;
    if n > c {
      ClosedIsIdle(run, events, c, n - 1);
    } else if n > 0 {
      if run[n - 1].closed {
        ClosedIsIdle(run, events, n - 1, n - 1);
      }
    }
  }

  lemma {:induction false} FailureAfterClose(run: seq<Twin>, events: seq<TwinEvent>, c: nat, s: nat, n: nat) returns (k: nat)
    requires IsTwinRun(run, events) && c <= n < |run| && run[c].closed
    requires run[c].periodic.Holding? && InHands(run[c], Periodic, s) && !run[n].periodic.Holding?
    ensures c <= k < n && FailedWith(run, events, s, k)
    decreases n - c
  {
    hide HasSlot, Committed, Collected, Changed;
    if events[c] == Fail(Periodic) {
      k := c;
    } else {
      assert run[c + 1] == Take(run[c], events[c]);
      k := FailureAfterClose(run, events, c + 1, s, n);
    }
  }

  function Total(rows: seq<Row>, n: nat): nat {
    if n == 0 then 0 else Total(rows, n - 1) + TimesStreamed(rows, n - 1)
  }

  lemma {:induction false} TotalIsAll(rows: seq<Row>, n: nat)
    requires forall k :: 0 <= k < |rows| ==> rows[k].slot < n
    ensures Total(rows, n) == |rows|
    decreases |rows|
  {
    if rows == [] {
      TotalOfNone(n);
    } else {
      TotalIsAll(rows[..|rows| - 1], n);
      TotalOfMore(rows, n);
    }
  }

  lemma {:induction false} TotalOfNone(n: nat)
    ensures Total([], n) == 0
  {
    if n > 0 {
      TotalOfNone(n - 1);
    }
  }

  lemma {:induction false} TotalOfMore(rows: seq<Row>, n: nat)
    requires rows != []
    ensures Total(rows, n) == Total(rows[..|rows| - 1], n) + if rows[|rows| - 1].slot < n then 1 else 0
  {
    if n > 0 {
      TotalOfMore(rows, n - 1);
    }
  }

  function Below(again: set<nat>, n: nat): set<nat> {
    set s | s in again && s < n
  }

  lemma {:induction false} TotalByCase(t: Twin, n: nat)
    requires n <= |t.l.records|
    requires forall s :: 0 <= s < |t.l.records| ==>
               TimesStreamed(t.disk, s) == if t.l.records[s].Some? then 0 else if s in t.again then 2 else 1
    requires forall s :: 0 <= s < |t.l.records| && t.l.records[s].Some? ==> s !in t.again
    ensures Total(t.disk, n) + |LiveRecords(t.l.records, n)| == n + |Below(t.again, n)|
    ensures n == |t.l.records| && (forall s :: s in t.again ==> s < |t.l.records|) ==> Below(t.again, n) == t.again
  {
    if n == 0 {
      assert Below(t.again, 0) == {};
    } else {
      TotalByCase(t, n - 1);
      assert Below(t.again, n) == Below(t.again, n - 1) + if n - 1 in t.again then {n - 1} else {};
    }
  }

  // ---------------------------------------------------------------- a seal beside a flush

  /** The seal picks exactly the records still in memory, each once. */
  lemma SealTakesTheLive(l: Ledger)
    ensures DistinctSlots(CollectedBatch(l, SealAll()))
    ensures forall s :: 0 <= s < |l.records| ==> (HasSlot(CollectedBatch(l, SealAll()), s) <==> l.records[s].Some?)
    ensures |CollectedBatch(l, SealAll())| == |LiveRecords(l.records, |l.records|)|
  {
    hide HasSlot, LiveRecords;
    PickedSlots(l, SealAll());
    SealTakesAll(l.records, |l.records|);
  }

  lemma {:induction false} SealTakesAll(records: seq<Option<FileRecord>>, n: nat)
    requires n <= |records|
    ensures |Batch(records, n, SealAll())| == |LiveRecords(records, n)|
  {
    if n > 0 {
      SealTakesAll(records, n - 1);
    }
  }

  /** The ledger when both batches are released, the first only if it was written. */
  ghost function AfterBoth(m: Ledger, first: seq<Row>, written: bool, second: seq<Row>): Ledger
    requires Fits(m, first) && Fits(m, second)
  {
    Committed(if written then Committed(m, first) else m, second)
  }

  /** A seal that collects while a periodic flush, with any predicate, holds its batch: whatever changed in
      between, a slot is streamed twice if and only if the flush picked it and could still write its batch
      before the file was closed. The flushed count then exceeds the records by the size of that batch. */
  lemma TwoFlushersDuplicateIff(l: Ledger, p: Finality, m: Ledger, written: bool)
    requires Grown(Collected(l, p), m)
    ensures var first, second := CollectedBatch(l, p), CollectedBatch(m, SealAll());
            var rows := (if written then first else []) + second;
            && (forall s :: 0 <= s < |m.records| ==>
                  (TimesStreamed(rows, s) == 2
                   <==> written && s < |l.records| && l.records[s].Some? && p(l.records[s].value).0))
            && |second| == |LiveRecords(m.records, |m.records|)|
            && Fits(m, first) && Fits(m, second)
            && AfterBoth(m, first, written, second).flushed
               == l.flushed + |LiveRecords(m.records, |m.records|)| + if written then |first| else 0
  {
    hide TimesStreamed, HasSlot, CommitSlots, LiveRecords, CollectedBatch, Collected;
    var first, second := CollectedBatch(l, p), CollectedBatch(m, SealAll());
    PickedSlots(l, p);
    PickedSlots(m, SealAll());
    JudgedShape(l, p);
    SealTakesTheLive(m);
    EmptyBatch();
    var flushed := if written then first else [];
    forall s | 0 <= s < |m.records|
      ensures TimesStreamed(flushed + second, s) == 2
              <==> written && s < |l.records| && l.records[s].Some? && p(l.records[s].value).0
    {
      StreamedInTwo(flushed, second, s);
      if s >= |l.records| {
        NoneStreamed(first, s);
      }
    }
    CommitEmpties(m, first, |first|);
    var n := if written then Committed(m, first) else m;
    CommitEmpties(n, second, |second|);
  }

  lemma {:induction false} StreamedInTwo(a: seq<Row>, b: seq<Row>, s: nat)
    ensures TimesStreamed(a + b, s) == TimesStreamed(a, s) + TimesStreamed(b, s)
    decreases |b|
  {
    if b == [] {
      assert a + b == a;
    } else {
      assert (a + b)[..|a + b| - 1] == a + b[..|b| - 1];
      StreamedInTwo(a, b[..|b| - 1], s);
    }
  }
}
