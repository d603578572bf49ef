/** Runs of the ledger: uploads and attaches of any kind, in any order, while one flusher
    collects, writes and releases rows in separate steps. */
module LedgerRuns {
  import opened Collections
  import opened Ledger

  /** Where the flusher stands: idle, holding a batch it has yet to write, or written and not yet released. */
  datatype Phase = Open | Holding(batch: seq<Row>) | Written(batch: seq<Row>)

  /** The batch a flusher has in its hands, written or not. */
  function InHand(p: Phase): seq<Row> {
    if p.Open? then [] else p.batch
  }

  /** The ledger, the flusher, the rows on disk and, in flush order, the records at their release. */
  datatype Book = Book(l: Ledger, phase: Phase, disk: seq<Row>, released: seq<FileRecord>)

  datatype Event =
    | Add(r: FileRecord)
    | Track(user: string, filename: string, trackID: string, at: int, timedOut: bool)
    | Attach(via: Lookup, d: DownloadResult)
    | Stamp(errCode: string)
    | Collect(isFinal: Finality)
    | WriteRows
    | Release

  function Held(b: Book): seq<Row> {
    InHand(b.phase)
  }

  const BLANK := Book(EMPTY, Open, [], [])

  predicate Enabled(b: Book, e: Event) {
    match e
    case Collect(_) => b.phase.Open?
    case WriteRows => b.phase.Holding?
    case Release => b.phase.Written?
    case _ => true
  }

  ghost predicate BatchInRange(b: Book) {
    !b.phase.Open? ==> forall k :: 0 <= k < |b.phase.batch| ==> b.phase.batch[k].slot < |b.l.records|
  }

  /** The records a batch releases, as they are when it is released. */
  function Records(l: Ledger, batch: seq<Row>, n: nat): seq<FileRecord>
    requires n <= |batch|
    requires forall k :: 0 <= k < |batch| ==> batch[k].slot < |l.records|
  {
    if n == 0 then []
    else
      var r := l.records[batch[n - 1].slot];
      Records(l, batch, n - 1) + if r.Some? then [r.value] else []
  }

  function Apply(b: Book, e: Event): Book
    requires Enabled(b, e) && BatchInRange(b)
  {
    match e
    case Add(r) => b.(l := Uploaded(b.l, r))
    case Track(u, f, id, at, out) => b.(l := Tracked(b.l, u, f, id, at, out))
    case Attach(via, d) => b.(l := Downloaded(b.l, via, d))
    case Stamp(code) => b.(l := StampPending(b.l, code))
    case Collect(isFinal) =>
      var batch := CollectedBatch(b.l, isFinal);
      b.(l := Collected(b.l, isFinal), phase := if batch == [] then Open else Holding(batch))
    case WriteRows =>
      b.(phase := Written(b.phase.batch), disk := b.disk + b.phase.batch)
    case Release =>
      b.(l := Committed(b.l, b.phase.batch), phase := Open,
         released := b.released + Records(b.l, b.phase.batch, |b.phase.batch|))
  }

  /** Slots that have been released: the rows on disk other than a batch just written. */
  function Done(b: Book): int {
    |b.disk| - if b.phase.Written? then |b.phase.batch| else 0
  }

  ghost predicate DistinctSlots(rows: seq<Row>) {
    forall i, j :: 0 <= i < j < |rows| ==> rows[i].slot != rows[j].slot
  }

  ghost predicate HasSlot(rows: seq<Row>, s: nat) {
    exists i :: 0 <= i < |rows| && rows[i].slot == s
  }

  /** A held batch names distinct slots, all still in memory. */
  ghost predicate BatchLive(l: Ledger, batch: seq<Row>) {
    && DistinctSlots(batch)
    && forall i :: 0 <= i < |batch| ==> Live(l, batch[i].slot)
  }

  /** The rows name each emptied slot once, and no other. */
  ghost predicate RowsMatch(records: seq<Option<FileRecord>>, rows: seq<Row>) {
    && DistinctSlots(rows)
    && (forall s :: 0 <= s < |records| ==> (records[s].None? <==> HasSlot(rows, s)))
    && (forall i :: 0 <= i < |rows| ==> rows[i].slot < |records|)
  }

  ghost predicate Conserved(b: Book) {
    && (!b.phase.Open? ==> BatchLive(b.l, b.phase.batch))
    && Done(b) == |b.released| == b.l.flushed
    && 0 <= Done(b) && (b.phase.Written? ==> b.disk[Done(b)..] == b.phase.batch)
    && RowsMatch(b.l.records, b.disk[..Done(b)])
    && b.l.recentTail == LastOf(b.released, RECENT_TAIL_CAP)
    && |LiveRecords(b.l.records, |b.l.records|)| + |b.released| == |b.l.records|
  }

  /** The ledgers agree on which slots are in memory, and on the flush tallies. */
  ghost predicate SameShape(l: Ledger, m: Ledger) {
    && |l.records| == |m.records|
    && (forall s :: 0 <= s < |l.records| ==> (l.records[s].Some? <==> m.records[s].Some?))
    && l.flushed == m.flushed && l.recentTail == m.recentTail
  }

  lemma {:induction false} SameLiveCount(a: seq<Option<FileRecord>>, b: seq<Option<FileRecord>>, n: nat)
    requires |a| == |b| && n <= |a|
    requires forall s :: 0 <= s < |a| ==> (a[s].Some? <==> b[s].Some?)
    ensures |LiveRecords(a, n)| == |LiveRecords(b, n)|
  {
    if n > 0 {
      SameLiveCount(a, b, n - 1);
    }
  }

  /** The live records are listed in slot order: that of slot `s` after as many as are live before it, and no other
      is listed. */
  lemma {:induction false} LiveInOrder(records: seq<Option<FileRecord>>, n: nat, s: nat)
    requires s < n <= |records|
    ensures records[s].Some? ==>
              |LiveRecords(records, s)| < |LiveRecords(records, n)|
              && LiveRecords(records, n)[|LiveRecords(records, s)|] == records[s].value
    ensures |LiveRecords(records, s)| <= |LiveRecords(records, n)| <= |LiveRecords(records, s)| + (n - s)
    ensures (forall i :: s <= i < n ==> records[i].None?) ==> LiveRecords(records, n) == LiveRecords(records, s)
  {
    if s < n - 1 {
      LiveInOrder(records, n - 1, s);
    }
  }

  lemma ShapeKeeps(b: Book, m: Ledger)
    requires Conserved(b) && SameShape(b.l, m)
    ensures Conserved(b.(l := m))
  {
    SameLiveCount(b.l.records, m.records, |m.records|);
    if !b.phase.Open? {
      forall i | 0 <= i < |b.phase.batch| ensures Live(m, b.phase.batch[i].slot) {
        assert Live(b.l, b.phase.batch[i].slot);
      }
    }
  }

  lemma {:induction false} LivePrefix(a: seq<Option<FileRecord>>, b: seq<Option<FileRecord>>, n: nat)
    requires n <= |a| && n <= |b| && a[..n] == b[..n]
    ensures LiveRecords(a, n) == LiveRecords(b, n)
  {
    if n > 0 {
      assert a[n - 1] == a[..n][n - 1] == b[..n][n - 1] == b[n - 1];
      assert a[..n - 1] == a[..n][..n - 1] == b[..n][..n - 1] == b[..n - 1];
      LivePrefix(a, b, n - 1);
    }
  }

  lemma AddKeeps(b: Book, r: FileRecord)
    requires Conserved(b)
    ensures Conserved(b.(l := Uploaded(b.l, r)))
  {
    var m := Uploaded(b.l, r);
    LivePrefix(m.records, b.l.records, |b.l.records|);
    assert !HasSlot(b.disk[..Done(b)], |b.l.records|);
    if !b.phase.Open? {
      forall i | 0 <= i < |b.phase.batch| ensures Live(m, b.phase.batch[i].slot) {
        assert Live(b.l, b.phase.batch[i].slot);
      }
    }
  }

  /** The row is a final record of its slot, as the predicate left it. */
  ghost predicate FromSlot(records: seq<Option<FileRecord>>, isFinal: Finality, row: Row) {
    && row.slot < |records| && records[row.slot].Some?
    && isFinal(records[row.slot].value).0 && row.record == isFinal(records[row.slot].value).1
  }

  /** The rows come from distinct slots below `n`, in slot order. */
  ghost predicate FromSlots(records: seq<Option<FileRecord>>, n: nat, isFinal: Finality, batch: seq<Row>) {
    && (forall i :: 0 <= i < |batch| ==> batch[i].slot < n && FromSlot(records, isFinal, batch[i]))
    && (forall i, j :: 0 <= i < j < |batch| ==> batch[i].slot < batch[j].slot)
  }

  lemma {:induction false} BatchSound(records: seq<Option<FileRecord>>, n: nat, isFinal: Finality)
    requires n <= |records|
    ensures FromSlots(records, n, isFinal, Batch(records, n, isFinal))
  {
    if n > 0 {
      BatchSound(records, n - 1, isFinal);
      assert records[n - 1].Some? && isFinal(records[n - 1].value).0 ==>
        FromSlot(records, isFinal, Row(n - 1, isFinal(records[n - 1].value).1));
    }
  }

  lemma {:induction false} BatchComplete(records: seq<Option<FileRecord>>, n: nat, isFinal: Finality, s: nat)
    requires s < n <= |records|
    ensures records[s].Some? && isFinal(records[s].value).0 ==> HasSlot(Batch(records, n, isFinal), s)
  {
    var before, batch := Batch(records, n - 1, isFinal), Batch(records, n, isFinal);
    if s < n - 1 {
      BatchComplete(records, n - 1, isFinal, s);
      if HasSlot(before, s) {
        var i :| 0 <= i < |before| && before[i].slot == s;
        assert batch[i].slot == s;
      }
    } else if records[s].Some? && isFinal(records[s].value).0 {
      assert batch[|before|].slot == s;
    }
  }

  /** The collected batch lists every slot the predicate calls final, each once, in slot order, as the
      predicate left it, and no other. */
  lemma BatchMeaning(records: seq<Option<FileRecord>>, n: nat, isFinal: Finality)
    requires n <= |records|
    ensures FromSlots(records, n, isFinal, Batch(records, n, isFinal))
    ensures forall s :: 0 <= s < n ==>
              (HasSlot(Batch(records, n, isFinal), s) <==> records[s].Some? && isFinal(records[s].value).0)
  {
    BatchSound(records, n, isFinal);
    forall s | 0 <= s < n
      ensures HasSlot(Batch(records, n, isFinal), s) <==> records[s].Some? && isFinal(records[s].value).0
    {
      BatchComplete(records, n, isFinal, s);
      if i :| 0 <= i < |Batch(records, n, isFinal)| && Batch(records, n, isFinal)[i].slot == s {
        assert FromSlot(records, isFinal, Batch(records, n, isFinal)[i]);
      }
    }
  }

  lemma CollectKeeps(b: Book, isFinal: Finality)
    requires Conserved(b) && b.phase.Open?
    ensures Conserved(Apply(b, Collect(isFinal)))
  {
    var m, batch := Collected(b.l, isFinal), CollectedBatch(b.l, isFinal);
    BatchMeaning(b.l.records, |b.l.records|, isFinal);
    ShapeKeeps(b, m);
    forall i | 0 <= i < |batch| ensures Live(m, batch[i].slot) {
      assert FromSlot(b.l.records, isFinal, batch[i]);
    }
  }

  lemma LastOfAppend<T>(s: seq<T>, x: T, n: nat)
    requires n > 0
    ensures LastOf(LastOf(s, n) + [x], n) == LastOf(s + [x], n)
  {
  }

  lemma {:induction false} LiveRecordsDrop(records: seq<Option<FileRecord>>, i: nat, n: nat)
    requires i < |records| && n <= |records| && records[i].Some?
    ensures |LiveRecords(records[i := None], n)| == |LiveRecords(records, n)| - if i < n then 1 else 0
  {
    if n > 0 {
      LiveRecordsDrop(records, i, n - 1);
    }
  }

  /** `m` is `l` with the slots of the first `n` rows emptied and the recent tail brought up to date. */
  ghost predicate IsCommitOf(l: Ledger, batch: seq<Row>, n: nat, released: seq<FileRecord>, m: Ledger)
    requires BatchLive(l, batch) && n <= |batch|
  {
    && |m.records| == |l.records| && m.flushed == l.flushed
    && EmptiedAt(l.records, batch[..n], m.records)
    && m.recentTail == LastOf(released + Records(l, batch, n), RECENT_TAIL_CAP)
    && |Records(l, batch, n)| == n
    && |LiveRecords(m.records, |m.records|)| + n == |LiveRecords(l.records, |l.records|)|
  }

  ghost predicate EmptiedAt(was: seq<Option<FileRecord>>, rows: seq<Row>, now: seq<Option<FileRecord>>)
    requires |now| == |was|
  {
    forall s :: 0 <= s < |was| ==> now[s] == if HasSlot(rows, s) then None else was[s]
  }

  /** Releasing the first `n` rows of a batch empties exactly their slots and keeps the tail current. */
  lemma {:induction false} CommitMeaning(l: Ledger, batch: seq<Row>, n: nat, released: seq<FileRecord>)
    requires BatchLive(l, batch) && n <= |batch|
    requires l.recentTail == LastOf(released, RECENT_TAIL_CAP)
    ensures IsCommitOf(l, batch, n, released, CommitSlots(l, batch, n))
  {
    if n == 0 {
      assert released + [] == released;
    } else {
      CommitMeaning(l, batch, n - 1, released);
      var before, i := CommitSlots(l, batch, n - 1), batch[n - 1].slot;
      assert Live(l, i);
      var r := l.records[i].value;
      EmptyOneMore(l, batch, n, before.records);
      hide EmptiedAt, LastOf, LiveRecords, HasSlot;
      LiveRecordsDrop(before.records, i, |l.records|);
      LastOfAppend(released + Records(l, batch, n - 1), r, RECENT_TAIL_CAP);
      assert released + Records(l, batch, n) == released + Records(l, batch, n - 1) + [r];
    }
  }

  lemma EmptyOneMore(l: Ledger, batch: seq<Row>, n: nat, now: seq<Option<FileRecord>>)
    requires BatchLive(l, batch) && 1 <= n <= |batch| && |now| == |l.records|
    requires EmptiedAt(l.records, batch[..n - 1], now)
    ensures batch[n - 1].slot < |now| && now[batch[n - 1].slot] == l.records[batch[n - 1].slot]
    ensures EmptiedAt(l.records, batch[..n], now[batch[n - 1].slot := None])
  {
  }

  /** A commit touches neither the hash tallies nor the index by minute. */
  lemma {:induction false} CommitKeepsTallies(l: Ledger, batch: seq<Row>, n: nat)
    requires n <= |batch| && forall k :: 0 <= k < |batch| ==> batch[k].slot < |l.records|
    ensures var m := CommitSlots(l, batch, n);
            m.hashVerified == l.hashVerified && m.hashMismatch == l.hashMismatch && m.byMinute == l.byMinute
  {
    if n > 0 {
      CommitKeepsTallies(l, batch, n - 1);
    }
  }

  lemma HasSlotSplit(a: seq<Row>, b: seq<Row>, s: nat)
    ensures HasSlot(a + b, s) <==> HasSlot(a, s) || HasSlot(b, s)
  {
    if HasSlot(a, s) {
      var i :| 0 <= i < |a| && a[i].slot == s;
      assert (a + b)[i].slot == s;
    }
    if HasSlot(b, s) {
      var i :| 0 <= i < |b| && b[i].slot == s;
      assert (a + b)[|a| + i].slot == s;
    }
  }

  lemma RowsMatchAfter(l: Ledger, done: seq<Row>, batch: seq<Row>, after: seq<Option<FileRecord>>)
    requires RowsMatch(l.records, done) && BatchLive(l, batch) && |after| == |l.records|
    requires forall s :: 0 <= s < |l.records| ==> after[s] == if HasSlot(batch, s) then None else l.records[s]
    ensures RowsMatch(after, done + batch)
  {
    var rows := done + batch;
    forall s | 0 <= s < |after| ensures after[s].None? <==> HasSlot(rows, s) {
      HasSlotSplit(done, batch, s);
    }
    forall i | 0 <= i < |batch| ensures Live(l, batch[i].slot) && !HasSlot(done, batch[i].slot) {
    }
    forall i, j | 0 <= i < j < |rows| ensures rows[i].slot != rows[j].slot {
      if i < |done| <= j {
        assert !HasSlot(done, batch[j - |done|].slot);
      }
    }
  }

  lemma ReleaseKeeps(b: Book)
    requires Conserved(b) && b.phase.Written? && BatchInRange(b)
    ensures Conserved(Apply(b, Release))
  {
    hide RowsMatch, HasSlot, LastOf, LiveRecords, Records, CommitSlots;
    var batch, done := b.phase.batch, b.disk[..Done(b)];
    CommitMeaning(b.l, batch, |batch|, b.released);
    assert batch[..|batch|] == batch;
    assert b.disk == done + batch && b.disk[..|b.disk|] == b.disk;
    RowsMatchAfter(b.l, done, batch, Committed(b.l, batch).records);
  }

  lemma WriteKeeps(b: Book)
    requires Conserved(b) && b.phase.Holding? && BatchInRange(b)
    ensures Conserved(Apply(b, WriteRows))
  {
    var c := Apply(b, WriteRows);
    assert c.disk[..Done(c)] == b.disk[..Done(b)] == b.disk;
  }

  lemma StepKeeps(b: Book, e: Event)
    requires Conserved(b) && Enabled(b, e) && BatchInRange(b)
    ensures Conserved(Apply(b, e))
  {
    match e
    case Add(r) => AddKeeps(b, r);
    case Collect(isFinal) => CollectKeeps(b, isFinal);
    case WriteRows => WriteKeeps(b);
    case Release => ReleaseKeeps(b);
    case _ => ShapeKeeps(b, Apply(b, e).l);
  }

  /** A run of the ledger from blank, any number of events in any order. */
  ghost predicate IsRun(run: seq<Book>, events: seq<Event>) {
    && |run| == |events| + 1 && run[0] == BLANK
    && forall i :: 0 <= i < |events| ==>
         BatchInRange(run[i]) && Enabled(run[i], events[i]) && run[i + 1] == Apply(run[i], events[i])
  }

  lemma {:induction false} RunConserves(run: seq<Book>, events: seq<Event>, n: nat)
    requires IsRun(run, events) && n < |run|
    ensures Conserved(run[n])
  {
    if n > 0 {
      RunConserves(run, events, n - 1);
      StepKeeps(run[n - 1], events[n - 1]);
    }
  }

  /** How many rows on disk came from slot `s`. */
  function TimesStreamed(rows: seq<Row>, s: nat): nat {
    if rows == [] then 0
    else TimesStreamed(rows[..|rows| - 1], s) + if rows[|rows| - 1].slot == s then 1 else 0
  }

  lemma {:induction false} StreamedOnce(rows: seq<Row>, s: nat)
    requires DistinctSlots(rows)
    ensures TimesStreamed(rows, s) == if HasSlot(rows, s) then 1 else 0
  {
    if rows != [] {
      var front, last := rows[..|rows| - 1], rows[|rows| - 1];
      StreamedOnce(front, s);
      HasSlotSplit(front, [last], s);
      assert front + [last] == rows;
      assert HasSlot([last], s) <==> [last][0].slot == s;
      if HasSlot(front, s) {
        var i :| 0 <= i < |front| && front[i].slot == s;
        assert rows[i].slot != last.slot;
      }
    }
  }

  /** Outside the window between write and release, every upload is either in memory and not on disk,
      or released and on disk exactly once; the counts add up, and the recent tail is the last rows released. */
  lemma NothingLostNothingTwice(run: seq<Book>, events: seq<Event>, n: nat)
    requires IsRun(run, events) && n < |run| && !run[n].phase.Written?
    ensures var b := run[n];
            && (forall s :: 0 <= s < |b.l.records| ==>
                  TimesStreamed(b.disk, s) == if b.l.records[s].Some? then 0 else 1)
            && |b.l.records| == |LiveRecords(b.l.records, |b.l.records|)| + b.l.flushed
            && b.l.flushed == |b.disk| == |b.released|
            && b.l.recentTail == LastOf(b.released, RECENT_TAIL_CAP)
  {
    RunConserves(run, events, n);
    var b := run[n];
    assert b.disk[..Done(b)] == b.disk;
    forall s | 0 <= s < |b.l.records|
      ensures TimesStreamed(b.disk, s) == if b.l.records[s].Some? then 0 else 1
    {
      StreamedOnce(b.disk, s);
    }
  }

  lemma {:induction false} CommitKeepsFlushed(l: Ledger, batch: seq<Row>, n: nat)
    requires n <= |batch| && forall k :: 0 <= k < |batch| ==> batch[k].slot < |l.records|
    ensures CommitSlots(l, batch, n).flushed == l.flushed
  {
    if n > 0 {
      CommitKeepsFlushed(l, batch, n - 1);
    }
  }

  /** Releasing a written batch empties exactly its slots, counts every row of it as flushed and keeps the
      recent tail the last records released. */
  lemma ReleaseMeaning(l: Ledger, batch: seq<Row>, released: seq<FileRecord>)
    requires BatchLive(l, batch) && l.recentTail == LastOf(released, RECENT_TAIL_CAP)
    ensures var m := Committed(l, batch);
            && m.flushed == l.flushed + |batch|
            && |m.records| == |l.records| && EmptiedAt(l.records, batch, m.records)
            && m.recentTail == LastOf(released + Records(l, batch, |batch|), RECENT_TAIL_CAP)
            && |LiveRecords(m.records, |m.records|)| + |batch| == |LiveRecords(l.records, |l.records|)|
  {
    CommitMeaning(l, batch, |batch|, released);
    CommitKeepsFlushed(l, batch, |batch|);
    assert batch[..|batch|] == batch;
  }
}
