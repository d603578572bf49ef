/** What a record in memory shows of the downloads of its run, what the hash tallies count, and what the index by
    minute lists. */
module RecordHistory {

  import opened Collections
  import opened TrackedNames
  import opened Ledger
  import opened LedgerRuns
  import opened LedgerRows
  import opened SealRuns
  import opened SealedRows
  import opened FlushRules
  import ReportStore

  // ---------------------------------------------------------------- what a record shows

  /** What has happened to a slot: the record its upload added, the last track id that landed, whether any of them
      was a timeout, the last download, the last wait that could be told and the last hash a download came with. */
  datatype Past = Past(upload: Option<FileRecord>, track: Option<Event>, timedOnce: bool, download: Option<DownloadResult>,
                       wait: Option<int>, hash: Option<string>)

  const NOTHING := Past(None, None, false, None, None, None)

  function Fetched(past: Past, d: DownloadResult): Past {
    past.(download := Some(d),
          wait := if d.availableAt == 0 || d.startTime == 0 then past.wait else Some(d.startTime - d.availableAt),
          hash := if d.sha256 == "" then past.hash else Some(d.sha256))
  }

  function PastAfter(past: Past, l: Ledger, e: Event, s: nat): Past {
    if e.Add? && s == |l.records| then past.(upload := Some(e.r))
    else if LandsOn(l, e, s) then past.(track := Some(e), timedOnce := past.timedOnce || e.timedOut)
    else if DownloadLands(l, e, s) then Fetched(past, e.d)
    else past
  }

  ghost function PastOf(run: seq<Twin>, events: seq<TwinEvent>, s: nat, n: nat): Past
    requires n <= |events| < |run|
  {
    if n == 0 then NOTHING
    else
      var past := PastOf(run, events, s, n - 1);
      if events[n - 1].Change? then PastAfter(past, run[n - 1].l, events[n - 1].e, s) else past
  }

  /** Nothing of the upload itself has changed. */
  predicate SameUpload(r: FileRecord, u: FileRecord) {
    && r.user == u.user && r.kind == u.kind && r.filename == u.filename && r.filenameID == u.filenameID
    && r.startTime == u.startTime && r.endTime == u.endTime
    && r.sizeBytes == u.sizeBytes && r.expectedSize == u.expectedSize && r.incomplete == u.incomplete
    && r.error == u.error && r.uploadSHA256 == u.uploadSHA256
  }

  /** The id that landed or the word for a timeout, when it came, and how long after the upload's end. */
  predicate ShowsTrack(r: FileRecord, e: Event)
    requires e.Track?
  {
    && r.trackID == (if e.timedOut then "TRACKID_TIMEOUT" else e.trackID) && r.trackIDAt == e.at
    && (r.endTime != 0 ==> r.trackIDWait == e.at - r.endTime)
  }

  /** The record carries the download, and says so when both sides have a hash and they differ. */
  ghost predicate ShowsDownload(r: FileRecord, d: DownloadResult) {
    var differ := d.sha256 != "" && r.uploadSHA256 != "" && d.sha256 != r.uploadSHA256;
    && Carries(r, d)
    && r.downloadError == (if differ && d.error == "" then "HASH_MISMATCH" else d.error)
  }

  /** A record in memory against its past. A track id that timed out is also the upload's error, unless it had one. */
  ghost predicate Shows(r: FileRecord, past: Past) {
    && past.upload.Some? && SameUpload(r, past.upload.value)
    && r.errorCode == (if past.timedOnce && past.upload.value.errorCode == "" then "TRACKID_TIMEOUT" else past.upload.value.errorCode)
    && (past.track.None? ==> r.trackID == "" && !past.timedOnce)
    && (past.track.Some? ==> past.track.value.Track? && ShowsTrack(r, past.track.value))
    && (past.download.None? ==> r.downloadEndTime == 0)
    && r.downloadWait == (if past.wait.Some? then past.wait.value else past.upload.value.downloadWait)
    && r.downloadSHA256 == (if past.hash.Some? then past.hash.value else past.upload.value.downloadSHA256)
    && (past.download.Some? ==> past.download.value.endTime != 0 && ShowsDownload(r, past.download.value))
  }

  ghost predicate SlotShows(l: Ledger, s: nat, past: Past) {
    if s >= |l.records| then past == NOTHING
    else l.records[s].Some? ==> Shows(l.records[s].value, past)
  }

  lemma TrackShows(r: FileRecord, e: Event, past: Past)
    requires Shows(r, past) && e.Track?
    ensures Shows(WithTrackID(r, e.trackID, e.at, e.timedOut),
                  past.(track := Some(e), timedOnce := past.timedOnce || e.timedOut))
  {
  }

  lemma DownloadShows(r: FileRecord, d: DownloadResult, past: Past)
    requires Shows(r, past) && d.endTime != 0
    ensures Shows(WithDownload(r, d), Fetched(past, d))
  {
  }

  lemma ErrorShows(r: FileRecord, error: string, past: Past)
    requires Shows(r, past) && r.downloadEndTime == 0
    ensures Shows(r.(downloadError := error), past)
  {
  }

  lemma ChangeShows(l: Ledger, e: Event, s: nat, past: Past, policy: Policy, now: int)
    requires SlotShows(l, s, past) && Honest(Change(e), policy, now)
    ensures SlotShows(Changed(l, e), s, PastAfter(past, l, e, s))
  {
    hide WithTrackID, WithDownload, Shows;
    if Live(l, s) {
      var r := l.records[s].value;
      match e
      case Track(_, _, _, _, _) => TrackShows(r, e, past);
      case Attach(_, d) => DownloadShows(r, d, past);
      case Stamp(code) =>
        if PendingDownload(r) {
          ErrorShows(r, code, past);
        }
      case _ =>
    } else if e.Add? && s == |l.records| {
      AddShows(e.r, past);
    }
  }

  lemma AddShows(r: FileRecord, past: Past)
    requires r.trackID == "" && r.downloadEndTime == 0 && past == NOTHING
    ensures Shows(r, past.(upload := Some(r)))
  {
  }

  lemma PickShows(l: Ledger, isFinal: Finality, s: nat, past: Past, policy: Policy, now: int)
    requires SlotShows(l, s, past) && Live(l, s)
    requires isFinal == IsRecordFinal(policy.downloads, policy.grace, now) || isFinal == SealAll()
    ensures SlotShows(Collected(l, isFinal), s, past)
  {
    var r := l.records[s].value;
    if r.downloadEndTime == 0 {
      ErrorShows(r, TIMED_OUT, past);
    }
    hide Shows;
  }

  lemma StepShows(t: Twin, e: TwinEvent, s: nat, past: Past, policy: Policy, now: int)
    requires SlotShows(t.l, s, past) && Honest(e, policy, now) && CanTake(t, e) && InRange(t)
    requires !e.Change?
    ensures SlotShows(Take(t, e).l, s, past)
  {
    hide CommitSlots, HasSlot, CollectedBatch, Shows, IsRecordFinal;
    match e
    case Free(who) => CommitEmpties(t.l, PhaseOf(t, who).batch, |PhaseOf(t, who).batch|);
    case Pick(_, isFinal) =>
      if Live(t.l, s) {
        PickShows(t.l, isFinal, s, past, policy, now);
      }
    case _ =>
  }

  /** Over every run: a record in memory is its upload as it was added, with the last track id and the last download
      that landed on it. */
  lemma {:induction false} RecordShowsItsPast(run: seq<Twin>, events: seq<TwinEvent>, policy: Policy, clock: seq<int>,
                                             n: nat, s: nat)
    requires IsRunnerRun(run, events, policy, clock) && n < |run|
    ensures SlotShows(run[n].l, s, PastOf(run, events, s, n))
  {
    if n > 0 {
      RecordShowsItsPast(run, events, policy, clock, n - 1, s);
      hide SlotShows, PastAfter, Changed;
      var e, past := events[n - 1], PastOf(run, events, s, n - 1);
      if e.Change? {
        ChangeShows(run[n - 1].l, e.e, s, past, policy, clock[n - 1]);
      } else {
        StepShows(run[n - 1], e, s, past, policy, clock[n - 1]);
      }
    }
  }

  // ---------------------------------------------------------------- the tallies

  /** Event `i` is a download that lands on a record, both sides having a hash, equal or not. */
  ghost predicate Compares(run: seq<Twin>, events: seq<TwinEvent>, i: nat, equal: bool)
    requires i < |events| < |run|
  {
    && events[i].Change? && events[i].e.Attach? && CanAttach(run[i].l, events[i].e.via)
    && var r, d := run[i].l.records[Find(run[i].l, events[i].e.via).value].value, events[i].e.d;
       r.uploadSHA256 != "" && d.sha256 != "" && (r.uploadSHA256 == d.sha256) == equal
  }

  ghost function Compared(run: seq<Twin>, events: seq<TwinEvent>, n: nat, equal: bool): nat
    requires n <= |events| < |run|
  {
    if n == 0 then 0 else Compared(run, events, n - 1, equal) + if Compares(run, events, n - 1, equal) then 1 else 0
  }

  lemma StepTallies(run: seq<Twin>, events: seq<TwinEvent>, i: nat)
    requires IsTwinRun(run, events) && i < |events|
    ensures run[i + 1].l.hashVerified == run[i].l.hashVerified + if Compares(run, events, i, true) then 1 else 0
    ensures run[i + 1].l.hashMismatch == run[i].l.hashMismatch + if Compares(run, events, i, false) then 1 else 0
  {
    hide CommitSlots, HasSlot, CollectedBatch, WithDownload, WithTrackID, Find;
    var t := run[i];
    match events[i]
    case Free(who) => CommitKeepsTallies(t.l, PhaseOf(t, who).batch, |PhaseOf(t, who).batch|);
    case _ =>
  }

  /** Over every run the two tallies are the numbers of downloads, landed on a record in memory, whose hash was equal
      to that of the upload and was not. */
  lemma {:induction false} TalliesCount(run: seq<Twin>, events: seq<TwinEvent>, n: nat)
    requires IsTwinRun(run, events) && n < |run|
    ensures run[n].l.hashVerified == Compared(run, events, n, true)
    ensures run[n].l.hashMismatch == Compared(run, events, n, false)
  {
    if n > 0 {
      TalliesCount(run, events, n - 1);
      hide IsTwinRun, Compares;
      StepTallies(run, events, n - 1);
    }
  }

  // ---------------------------------------------------------------- the index by minute

  function MinuteOf(r: FileRecord): Option<int> {
    if r.startTime == 0 then None else Some(r.startTime / 60_000_000_000)
  }

  function Listing(l: Ledger, m: int): seq<nat> {
    if m in l.byMinute then l.byMinute[m] else []
  }

  ghost predicate Ascending(slots: seq<nat>, n: nat) {
    && (forall i, j :: 0 <= i < j < |slots| ==> slots[i] < slots[j])
    && (forall i :: 0 <= i < |slots| ==> slots[i] < n)
  }

  /** The slots are in order, and those of records in memory are the ones that started in minute `m`. */
  ghost predicate Lists(slots: seq<nat>, records: seq<Option<FileRecord>>, n: nat, m: int)
    requires n <= |records|
  {
    && Ascending(slots, n)
    && forall s :: 0 <= s < n && records[s].Some? ==> (s in slots <==> MinuteOf(records[s].value) == Some(m))
  }

  ghost predicate MinutesExact(l: Ledger) {
    forall m :: Lists(Listing(l, m), l.records, |l.records|, m)
  }

  /** The records are as live as before or less, and started when they did. */
  ghost predicate StartsKept(l: Ledger, m: Ledger) {
    && m.byMinute == l.byMinute && |m.records| == |l.records|
    && forall s :: 0 <= s < |l.records| && m.records[s].Some? ==>
                     l.records[s].Some? && m.records[s].value.startTime == l.records[s].value.startTime
  }

  lemma StartsKeepMinutes(l: Ledger, m: Ledger)
    requires MinutesExact(l) && StartsKept(l, m)
    ensures MinutesExact(m)
  {
    forall k ensures Lists(Listing(m, k), m.records, |m.records|, k) {
      assert Lists(Listing(l, k), l.records, |l.records|, k);
    }
  }

  lemma AddLists(l: Ledger, r: FileRecord, k: int)
    ensures Listing(Uploaded(l, r), k) == Listing(l, k) + if MinuteOf(r) == Some(k) then [|l.records|] else []
  {
  }

  lemma OneMoreListed(slots: seq<nat>, records: seq<Option<FileRecord>>, r: FileRecord, m: int)
    requires Lists(slots, records, |records|, m)
    ensures Lists(slots + if MinuteOf(r) == Some(m) then [|records|] else [], records + [Some(r)], |records| + 1, m)
  {
    hide MinuteOf;
  }

  lemma AddKeepsMinutes(l: Ledger, r: FileRecord)
    requires MinutesExact(l)
    ensures MinutesExact(Uploaded(l, r))
  {
    var m := Uploaded(l, r);
    assert m.records == l.records + [Some(r)];
    hide Uploaded, MinuteOf, Listing, Lists;
    forall k ensures Lists(Listing(m, k), m.records, |m.records|, k) {
      AddLists(l, r, k);
      OneMoreListed(Listing(l, k), l.records, r, k);
    }
  }

  lemma ChangeKeepsMinutes(l: Ledger, e: Event)
    requires MinutesExact(l)
    ensures MinutesExact(Changed(l, e))
  {
    hide MinutesExact, Find;
    match e
    case Add(r) => AddKeepsMinutes(l, r);
    case _ => StartsKeepMinutes(l, Changed(l, e));
  }

  lemma StepKeepsMinutes(t: Twin, e: TwinEvent, policy: Policy, now: int)
    requires MinutesExact(t.l) && Honest(e, policy, now) && CanTake(t, e) && InRange(t)
    ensures MinutesExact(Take(t, e).l)
  {
    hide CommitSlots, HasSlot, CollectedBatch, MinutesExact, Changed;
    match e
    case Change(c) => ChangeKeepsMinutes(t.l, c);
    case Free(who) =>
      CommitEmpties(t.l, PhaseOf(t, who).batch, |PhaseOf(t, who).batch|);
      CommitKeepsTallies(t.l, PhaseOf(t, who).batch, |PhaseOf(t, who).batch|);
      StartsKeepMinutes(t.l, Take(t, e).l);
    case _ => StartsKeepMinutes(t.l, Take(t, e).l);
  }

  lemma {:induction false} MinutesStayExact(run: seq<Twin>, events: seq<TwinEvent>, policy: Policy, clock: seq<int>, n: nat)
    requires IsRunnerRun(run, events, policy, clock) && n < |run|
    ensures MinutesExact(run[n].l)
  {
    if n > 0 {
      MinutesStayExact(run, events, policy, clock, n - 1);
      hide MinutesExact, Take;
      StepKeepsMinutes(run[n - 1], events[n - 1], policy, clock[n - 1]);
    }
  }

  /** The records in memory, among the first `n` slots, that started in minute `m`, in slot order. */
  function Started(records: seq<Option<FileRecord>>, n: nat, m: int): seq<FileRecord>
    requires n <= |records|
  {
    if n == 0 then []
    else Started(records, n - 1, m)
         + if records[n - 1].Some? && MinuteOf(records[n - 1].value) == Some(m) then [records[n - 1].value] else []
  }

  lemma LastListed(slots: seq<nat>, records: seq<Option<FileRecord>>, n: nat, m: int)
    requires 0 < n <= |records| && Lists(slots, records, n, m)
    ensures slots != [] && slots[|slots| - 1] == n - 1 ==> Lists(slots[..|slots| - 1], records, n - 1, m)
    ensures slots == [] || slots[|slots| - 1] != n - 1 ==> Lists(slots, records, n - 1, m) && n - 1 !in slots
  {
    hide MinuteOf;
    if slots != [] && slots[|slots| - 1] == n - 1 {
      assert slots == slots[..|slots| - 1] + [n - 1];
    }
  }

  lemma {:induction false} ListedAreStarted(slots: seq<nat>, records: seq<Option<FileRecord>>, n: nat, m: int)
    requires n <= |records| && Lists(slots, records, n, m)
    ensures ReportStore.AtSlots(records, slots) == Started(records, n, m)
  {
    hide MinuteOf;
    if n > 0 {
      LastListed(slots, records, n, m);
      if slots != [] && slots[|slots| - 1] == n - 1 {
        ListedAreStarted(slots[..|slots| - 1], records, n - 1, m);
      } else {
        ListedAreStarted(slots, records, n - 1, m);
      }
    }
  }

  /** Over every run: what is listed for a minute are exactly the records in memory that started in it, in the order
      they were added. */
  lemma MinuteListsItsRecords(run: seq<Twin>, events: seq<TwinEvent>, policy: Policy, clock: seq<int>, n: nat, m: int)
    requires IsRunnerRun(run, events, policy, clock) && n < |run|
    ensures var l := run[n].l;
            && Lists(Listing(l, m), l.records, |l.records|, m)
            && ReportStore.AtSlots(l.records, Listing(l, m)) == Started(l.records, |l.records|, m)
  {
    MinutesStayExact(run, events, policy, clock, n);
    ListedAreStarted(Listing(run[n].l, m), run[n].l.records, |run[n].l.records|, m);
  }
}
