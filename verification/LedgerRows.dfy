/** What a row on disk shows: the state of a record at the flush that picked it, and so which attaches
    reach the file. */
module LedgerRows {

  import opened Collections
  import opened Ledger
  import opened LedgerRuns

  /** The row was picked at event `i`: a final record of its slot, as the predicate of that flush left it. */
  ghost predicate PickedAt(run: seq<Book>, events: seq<Event>, row: Row, i: int) {
    0 <= i < |events| && i < |run| && events[i].Collect? && FromSlot(run[i].l.records, events[i].isFinal, row)
  }

  ghost predicate PickedBefore(run: seq<Book>, events: seq<Event>, row: Row, n: int) {
    exists i :: i < n && PickedAt(run, events, row, i)
  }

  ghost predicate PickedAfter(run: seq<Book>, events: seq<Event>, row: Row, n: int) {
    exists i :: i > n && PickedAt(run, events, row, i)
  }

  ghost predicate AllPicked(run: seq<Book>, events: seq<Event>, rows: seq<Row>, n: int) {
    forall k :: 0 <= k < |rows| ==> PickedBefore(run, events, rows[k], n)
  }

  /** Every row on disk, and every row held, is the record of its slot as some earlier flush picked it. */
  lemma {:induction false} RowsAreAsPicked(run: seq<Book>, events: seq<Event>, n: nat)
    requires IsRun(run, events) && n < |run|
    ensures AllPicked(run, events, run[n].disk, n) && AllPicked(run, events, Held(run[n]), n)
  {
    hide AllPicked, Apply, Enabled, BatchInRange;
    if n == 0 {
      NoRowsPicked(run, events);
    } else {
      RowsAreAsPicked(run, events, n - 1);
      StillPicked(run, events, run[n - 1].disk, n - 1);
      StillPicked(run, events, Held(run[n - 1]), n - 1);
      NextRowsPicked(run, events, n);
    }
  }

  lemma NoRowsPicked(run: seq<Book>, events: seq<Event>)
    requires IsRun(run, events)
    ensures AllPicked(run, events, run[0].disk, 0) && AllPicked(run, events, Held(run[0]), 0)
  {
  }

  lemma NextRowsPicked(run: seq<Book>, events: seq<Event>, n: nat)
    requires IsRun(run, events) && 0 < n < |run|
    requires AllPicked(run, events, run[n - 1].disk, n) && AllPicked(run, events, Held(run[n - 1]), n)
    ensures AllPicked(run, events, run[n].disk, n) && AllPicked(run, events, Held(run[n]), n)
  {
    hide FromSlot, PickedBefore;
    var b, c, e := run[n - 1], run[n], events[n - 1];
    if e.Collect? {
      hide PickedAt;
      forall k | 0 <= k < |Held(c)| ensures PickedBefore(run, events, Held(c)[k], n) {
        NowPicked(run, events, n, k);
      }
    } else if e.WriteRows? {
      assert c.disk == b.disk + Held(b) && Held(c) == Held(b);
    } else {
      assert c.disk == b.disk && (Held(c) == Held(b) || Held(c) == []);
    }
  }

  lemma NowPicked(run: seq<Book>, events: seq<Event>, n: nat, k: nat)
    requires IsRun(run, events) && 0 < n < |run| && events[n - 1].Collect? && k < |Held(run[n])|
    ensures PickedBefore(run, events, Held(run[n])[k], n)
  {
    BatchMeaning(run[n - 1].l.records, |run[n - 1].l.records|, events[n - 1].isFinal);
    assert PickedAt(run, events, Held(run[n])[k], n - 1);
  }

  lemma StillPicked(run: seq<Book>, events: seq<Event>, rows: seq<Row>, n: int)
    requires AllPicked(run, events, rows, n)
    ensures AllPicked(run, events, rows, n + 1)
  {
    forall k | 0 <= k < |rows| ensures PickedBefore(run, events, rows[k], n + 1) {
      assert PickedBefore(run, events, rows[k], n);
    }
  }

  /** The slot is in the flusher's hands, or released. */
  ghost predicate Taken(b: Book, s: nat) {
    s < |b.l.records| && (HasSlot(Held(b), s) || b.l.records[s].None?)
  }

  lemma TakenStays(b: Book, e: Event, s: nat)
    requires Conserved(b) && Enabled(b, e) && BatchInRange(b) && Taken(b, s)
    ensures Taken(Apply(b, e), s)
  {
    if e.Release? {
      hide RowsMatch, LiveRecords, Records, CommitSlots, LastOf;
      ReleaseMeaning(b.l, b.phase.batch, b.released);
    }
  }

  lemma {:induction false} TakenForGood(run: seq<Book>, events: seq<Event>, s: nat, i: nat, j: nat)
    requires IsRun(run, events) && i <= j < |run| && Taken(run[i], s)
    ensures Taken(run[j], s)
  {
    hide Apply, Taken, Conserved, Enabled, BatchInRange;
    if i < j {
      TakenForGood(run, events, s, i, j - 1);
      RunConserves(run, events, j - 1);
      TakenStays(run[j - 1], events[j - 1], s);
    }
  }

  /** A pick puts the slot in the flusher's hands, which it was not in before. */
  lemma PickTakes(run: seq<Book>, events: seq<Event>, row: Row, i: nat)
    requires IsRun(run, events) && PickedAt(run, events, row, i)
    ensures !Taken(run[i], row.slot) && Taken(run[i + 1], row.slot)
  {
    BatchMeaning(run[i].l.records, |run[i].l.records|, events[i].isFinal);
  }

  /** The flush window. A successful attach is in the row its slot ends up with if and only if the flusher
      did not hold the slot when the attach landed: then the row was picked after the attach, otherwise
      before it, and the attach, though reported as a success, is not in the file. The window opens when
      the batch is collected, not when it is written. */
  lemma AttachReachesItsRowIff(run: seq<Book>, events: seq<Event>, n: nat, m: nat, k: nat)
    requires IsRun(run, events) && n < |events| && events[n].Attach? && CanAttach(run[n].l, events[n].via)
    requires m < |run| && k < |run[m].disk| && run[m].disk[k].slot == Find(run[n].l, events[n].via).value
    ensures PickedAfter(run, events, run[m].disk[k], n) <==> !HasSlot(Held(run[n]), run[m].disk[k].slot)
    ensures PickedBefore(run, events, run[m].disk[k], n) <==> HasSlot(Held(run[n]), run[m].disk[k].slot)
  {
    hide FromSlot, Apply, Conserved, Taken, Enabled, BatchInRange;
    var row := run[m].disk[k];
    RowsAreAsPicked(run, events, m);
    assert PickedBefore(run, events, row, m);
    forall i | PickedAt(run, events, row, i) ensures i < n <==> HasSlot(Held(run[n]), row.slot) {
      PickSide(run, events, row, i, n);
    }
  }

  lemma PickSide(run: seq<Book>, events: seq<Event>, row: Row, i: nat, n: nat)
    requires IsRun(run, events) && PickedAt(run, events, row, i) && n < |events| && !events[n].Collect?
    requires Live(run[n].l, row.slot)
    ensures i < n <==> HasSlot(Held(run[n]), row.slot)
    ensures i != n
  {
    hide FromSlot, Apply, Conserved, Enabled, BatchInRange;
    PickTakes(run, events, row, i);
    if i < n {
      TakenForGood(run, events, row.slot, i + 1, n);
    } else if Taken(run[n], row.slot) {
      TakenForGood(run, events, row.slot, n, i);
    }
  }

  // ---------------------------------------------------------------- what the row then says

  /** The record holds the download's result; only its error may have been set since. */
  ghost predicate Carries(r: FileRecord, d: DownloadResult) {
    && r.downloadUser == d.downloadUser && r.downloadAvailableAt == d.availableAt
    && r.downloadStartTime == d.startTime && r.downloadEndTime == d.endTime
    && r.downloadSizeBytes == d.sizeBytes && r.downloadSpeed == d.speed
    && (d.sha256 != "" ==> r.downloadSHA256 == d.sha256)
    && (Comparable(r, d) ==> (r.hashMatch <==> r.uploadSHA256 == d.sha256))
  }

  /** Nothing that a download sets differs, but for its error. */
  predicate SameDownload(r: FileRecord, s: FileRecord) {
    && r.downloadUser == s.downloadUser && r.downloadAvailableAt == s.downloadAvailableAt
    && r.downloadStartTime == s.downloadStartTime && r.downloadEndTime == s.downloadEndTime
    && r.downloadSizeBytes == s.downloadSizeBytes && r.downloadSpeed == s.downloadSpeed
    && r.downloadSHA256 == s.downloadSHA256 && r.hashMatch == s.hashMatch && r.uploadSHA256 == s.uploadSHA256
  }

  /** A predicate that touches nothing of a download but its error. */
  ghost predicate KeepsDownloads(isFinal: Finality) {
    forall r :: SameDownload(r, isFinal(r).1)
  }

  /** Both predicates the runner flushes with do. */
  lemma RunnerKeepsDownloads(downloads: bool, grace: int, now: int)
    ensures KeepsDownloads(IsRecordFinal(downloads, grace, now)) && KeepsDownloads(SealAll())
  {
  }

  ghost predicate SlotCarries(b: Book, s: nat, d: DownloadResult) {
    Live(b.l, s) ==> Carries(b.l.records[s].value, d)
  }

  /** The event leaves the download of slot `s` alone. */
  ghost predicate LeavesDownload(b: Book, e: Event, s: nat) {
    && (e.Attach? ==> Find(b.l, e.via) != Some(s))
    && (e.Collect? ==> KeepsDownloads(e.isFinal))
  }

  lemma SlotKept(b: Book, e: Event, s: nat)
    requires Conserved(b) && Enabled(b, e) && BatchInRange(b) && LeavesDownload(b, e, s) && s < |b.l.records|
    ensures KeptAt(b.l, Apply(b, e).l, s)
  {
    hide Conserved, SameDownload;
    match e
    case Release => ReleaseKept(b, s);
    case Collect(isFinal) =>
      if Live(b.l, s) {
        assert SameDownload(b.l.records[s].value, isFinal(b.l.records[s].value).1);
      }
    case _ => ChangeKept(b, e, s);
  }

  lemma ReleaseKept(b: Book, s: nat)
    requires Conserved(b) && b.phase.Written? && BatchInRange(b) && s < |b.l.records|
    ensures KeptAt(b.l, Apply(b, Release).l, s)
  {
    hide RowsMatch, LiveRecords, Records, CommitSlots, LastOf;
    ReleaseMeaning(b.l, b.phase.batch, b.released);
  }

  /** Slot `s` is as live as it was, with the download it had. */
  ghost predicate KeptAt(l: Ledger, m: Ledger, s: nat) {
    && s < |l.records| && s < |m.records|
    && (m.records[s].Some? ==> l.records[s].Some? && SameDownload(l.records[s].value, m.records[s].value))
  }

  lemma TrackKept(l: Ledger, user: string, filename: string, trackID: string, at: int, timedOut: bool, s: nat)
    requires s < |l.records|
    ensures KeptAt(l, Tracked(l, user, filename, trackID, at, timedOut), s)
  {
  }

  lemma AttachKept(l: Ledger, via: Lookup, d: DownloadResult, s: nat)
    requires s < |l.records| && Find(l, via) != Some(s)
    ensures KeptAt(l, Downloaded(l, via, d), s)
  {
    hide WithDownload, Find;
  }

  lemma StampKept(l: Ledger, errCode: string, s: nat)
    requires s < |l.records|
    ensures KeptAt(l, StampPending(l, errCode), s)
  {
  }

  lemma ChangeKept(b: Book, e: Event, s: nat)
    requires Enabled(b, e) && BatchInRange(b) && LeavesDownload(b, e, s) && s < |b.l.records|
    requires !e.Release? && !e.Collect?
    ensures KeptAt(b.l, Apply(b, e).l, s)
  {
    hide SameDownload, Tracked, Downloaded, StampPending, KeptAt;
    match e
    case Add(r) => AddKept(b.l, r, s);
    case Track(u, f, id, at, out) => TrackKept(b.l, u, f, id, at, out, s);
    case Attach(via, d) => AttachKept(b.l, via, d, s);
    case Stamp(code) => StampKept(b.l, code, s);
    case WriteRows => NothingKept(b.l, s);
  }

  lemma AddKept(l: Ledger, r: FileRecord, s: nat)
    requires s < |l.records|
    ensures KeptAt(l, Uploaded(l, r), s)
  {
  }

  lemma NothingKept(l: Ledger, s: nat)
    requires s < |l.records|
    ensures KeptAt(l, l, s)
  {
  }

  lemma CarriesOn(b: Book, e: Event, s: nat, d: DownloadResult)
    requires Conserved(b) && Enabled(b, e) && BatchInRange(b) && LeavesDownload(b, e, s)
    requires s < |b.l.records| && SlotCarries(b, s, d)
    ensures s < |Apply(b, e).l.records| && SlotCarries(Apply(b, e), s, d)
  {
    hide Conserved, LeavesDownload, Apply, Enabled;
    SlotKept(b, e, s);
  }

  lemma {:induction false} CarriesThrough(run: seq<Book>, events: seq<Event>, n: nat, i: nat, s: nat, d: DownloadResult)
    requires IsRun(run, events) && n < i < |run|
    requires events[n].Attach? && events[n].d == d && CanAttach(run[n].l, events[n].via)
    requires s == Find(run[n].l, events[n].via).value
    requires forall j :: n < j < i ==> LeavesDownload(run[j], events[j], s)
    ensures s < |run[i].l.records| && SlotCarries(run[i], s, d)
  {
    if i > n + 1 {
      hide Apply, SlotCarries, LeavesDownload, Carries;
      CarriesThrough(run, events, n, i - 1, s, d);
      RunConserves(run, events, i - 1);
      CarriesOn(run[i - 1], events[i - 1], s, d);
    }
  }

  /** Outside the window the row shows the attach: its download fields are the result's, unless a later
      attach to the same slot replaced them. */
  lemma ReachedRowShowsIt(run: seq<Book>, events: seq<Event>, n: nat, i: nat, row: Row)
    requires IsRun(run, events) && n < i && PickedAt(run, events, row, i) && KeepsDownloads(events[i].isFinal)
    requires n < |events| && events[n].Attach? && CanAttach(run[n].l, events[n].via)
    requires row.slot == Find(run[n].l, events[n].via).value
    requires forall j :: n < j < i ==> LeavesDownload(run[j], events[j], row.slot)
    ensures Carries(row.record, events[n].d)
  {
    CarriesThrough(run, events, n, i, row.slot, events[n].d);
    var r := run[i].l.records[row.slot].value;
    assert SameDownload(r, events[i].isFinal(r).1);
  }

  /** Inside it the attach succeeds all the same, and the batch keeps the row as it was picked. */
  lemma LateAttachMissesTheRow(b: Book, via: Lookup, d: DownloadResult, k: nat)
    requires Conserved(b) && k < |Held(b)| && Find(b.l, via) == Some(Held(b)[k].slot)
    ensures CanAttach(b.l, via)
    ensures BatchInRange(b) && Held(Apply(b, Attach(via, d))) == Held(b) && Apply(b, Attach(via, d)).disk == b.disk
  {
    assert Live(b.l, Held(b)[k].slot);
  }

  /** A held row reaches the disk unchanged, and its slot is then emptied. */
  lemma HeldRowIsFinal(b: Book, k: nat)
    requires Conserved(b) && k < |Held(b)| && BatchInRange(b)
    ensures b.phase.Holding? ==>
              && Conserved(Apply(b, WriteRows)) && BatchInRange(Apply(b, WriteRows))
              && Held(Apply(b, WriteRows)) == Held(b) && Apply(b, WriteRows).disk[Done(b) + k] == Held(b)[k]
    ensures b.phase.Written? ==>
              && b.disk[Done(b) + k] == Held(b)[k]
              && Apply(b, Release).disk == b.disk && Apply(b, Release).l.records[Held(b)[k].slot].None?
  {
    hide RowsMatch, LiveRecords, Records, CommitSlots, LastOf;
    if b.phase.Holding? {
      WriteKeeps(b);
    } else {
      ReleaseMeaning(b.l, b.phase.batch, b.released);
      assert b.disk[Done(b)..][k] == b.disk[Done(b) + k];
      assert HasSlot(b.phase.batch, b.phase.batch[k].slot);
    }
  }
}
