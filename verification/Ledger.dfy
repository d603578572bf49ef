/** The per-file ledger of a run as a value: records in slots, three lookup indices and tallies.
    Times are nanoseconds, and 0 is the zero time. */
module Ledger {

  import opened Collections
  import opened TrackedNames

  datatype FileRecord = FileRecord(
    user: string, kind: string, filename: string, startTime: int, endTime: int,
    sizeBytes: int, expectedSize: int, incomplete: bool, error: string, errorCode: string,
    trackID: string, trackIDAt: int, trackIDWait: int, filenameID: string,
    downloadUser: string, downloadAvailableAt: int, downloadStartTime: int, downloadEndTime: int,
    downloadSizeBytes: int, downloadSpeed: real, downloadWait: int, downloadError: string,
    uploadSHA256: string, downloadSHA256: string, hashMatch: bool)

  datatype DownloadResult = DownloadResult(
    downloadUser: string, startTime: int, endTime: int, sizeBytes: int, speed: real,
    availableAt: int, error: string, sha256: string)

  datatype Ledger = Ledger(
    records: seq<Option<FileRecord>>,
    byKey: map<string, nat>, byBasename: map<string, nat>, byFilenameID: map<string, nat>,
    byMinute: map<int, seq<nat>>,
    flushed: nat, hashVerified: nat, hashMismatch: nat,
    recentTail: seq<FileRecord>)

  const RECENT_TAIL_CAP := 256
  const NS_PER_MINUTE := 60_000_000_000

  const EMPTY := Ledger([], map[], map[], map[], map[], 0, 0, 0, [])

  function Key(r: FileRecord): string {
    UserKey(r.user, r.filename)
  }

  predicate Live(l: Ledger, i: nat) {
    i < |l.records| && l.records[i].Some?
  }

  function Uploaded(l: Ledger, r: FileRecord): Ledger {
    var idx := |l.records|;
    var m := r.startTime / NS_PER_MINUTE;
    l.(records := l.records + [Some(r)],
       byKey := l.byKey[Key(r) := idx],
       byBasename := l.byBasename[r.filename := idx],
       byFilenameID := if r.filenameID != "" then l.byFilenameID[r.filenameID := idx] else l.byFilenameID,
       byMinute := if r.startTime == 0 then l.byMinute
                   else l.byMinute[m := (if m in l.byMinute then l.byMinute[m] else []) + [idx]])
  }

  function WithTrackID(r: FileRecord, trackID: string, at: int, timedOut: bool): FileRecord {
    r.(trackID := if timedOut then "TRACKID_TIMEOUT" else trackID,
       errorCode := if timedOut && r.errorCode == "" then "TRACKID_TIMEOUT" else r.errorCode,
       trackIDAt := at,
       trackIDWait := if r.endTime != 0 then at - r.endTime else r.trackIDWait)
  }

  /** Replaces the record of slot `i`, if it is still in memory. */
  function SetLive(l: Ledger, i: nat, r: FileRecord): Ledger
    requires Live(l, i)
  {
    l.(records := l.records[i := Some(r)])
  }

  function Tracked(l: Ledger, user: string, filename: string, trackID: string, at: int, timedOut: bool): Ledger {
    var k := UserKey(user, filename);
    if k !in l.byKey || !Live(l, l.byKey[k]) then l
    else SetLive(l, l.byKey[k], WithTrackID(l.records[l.byKey[k]].value, trackID, at, timedOut))
  }

  /** Both sides of the transfer produced a hash. */
  predicate Comparable(r: FileRecord, d: DownloadResult) {
    d.sha256 != "" && r.uploadSHA256 != ""
  }

  function WithDownload(r: FileRecord, d: DownloadResult): FileRecord {
    var matches := r.uploadSHA256 == d.sha256;
    r.(downloadUser := d.downloadUser, downloadAvailableAt := d.availableAt,
       downloadStartTime := d.startTime, downloadEndTime := d.endTime,
       downloadSizeBytes := d.sizeBytes, downloadSpeed := d.speed,
       downloadError := if Comparable(r, d) && !matches && d.error == "" then "HASH_MISMATCH" else d.error,
       downloadSHA256 := if d.sha256 != "" then d.sha256 else r.downloadSHA256,
       hashMatch := if Comparable(r, d) then matches else r.hashMatch,
       downloadWait := if d.availableAt != 0 && d.startTime != 0 then d.startTime - d.availableAt else r.downloadWait)
  }

  function AttachAt(l: Ledger, i: nat, d: DownloadResult): Ledger
    requires Live(l, i)
  {
    var r := l.records[i].value;
    var verified := Comparable(r, d) && r.uploadSHA256 == d.sha256;
    var mismatch := Comparable(r, d) && r.uploadSHA256 != d.sha256;
    SetLive(l, i, WithDownload(r, d)).(
      hashVerified := l.hashVerified + if verified then 1 else 0,
      hashMismatch := l.hashMismatch + if mismatch then 1 else 0)
  }

  /** One of the three attach entry points: the index it looks in and the key it looks for. */
  datatype Lookup = ByKey(user: string, filename: string) | ByBasename(basename: string) | ByMarker(marker: string)

  function Find(l: Ledger, via: Lookup): Option<nat> {
    match via
    case ByKey(u, f) => if UserKey(u, f) in l.byKey then Some(l.byKey[UserKey(u, f)]) else None
    case ByBasename(b) => if b in l.byBasename then Some(l.byBasename[b]) else None
    case ByMarker(m) => if m in l.byFilenameID then Some(l.byFilenameID[m]) else None
  }

  predicate CanAttach(l: Ledger, via: Lookup) {
    Find(l, via).Some? && Live(l, Find(l, via).value)
  }

  function Downloaded(l: Ledger, via: Lookup, d: DownloadResult): Ledger {
    if CanAttach(l, via) then AttachAt(l, Find(l, via).value, d) else l
  }

  /** A finality predicate may also stamp the record it is asked about. */
  type Finality = FileRecord -> (bool, FileRecord)

  /** `isRecordFinal` at time `now`, in a run with or without a download phase. */
  function IsRecordFinal(downloads: bool, grace: int, now: int): Finality {
    (r: FileRecord) =>
      if r.errorCode != "" && r.trackID == "" then (true, r)
      else if r.trackID == "" then (false, r)
      else if !downloads || r.downloadEndTime != 0 then (true, r)
      else if r.trackIDAt != 0 && now - r.trackIDAt > grace
      then (true, if r.downloadError == "" then r.(downloadError := "DOWNLOAD_TIMEOUT_LOCAL") else r)
      else (false, r)
  }

  /** The seal path's predicate: everything is final. */
  function SealAll(): Finality {
    r => (true, r)
  }

  datatype Row = Row(slot: nat, record: FileRecord)

  /** The first `n` slots after the predicate was asked about them. */
  function Judged(records: seq<Option<FileRecord>>, n: nat, isFinal: Finality): seq<Option<FileRecord>>
    requires n <= |records|
  {
    seq(|records|, i requires 0 <= i < |records| =>
      if i < n && records[i].Some? then Some(isFinal(records[i].value).1) else records[i])
  }

  /** The final rows among the first `n` slots, in slot order. */
  function Batch(records: seq<Option<FileRecord>>, n: nat, isFinal: Finality): seq<Row>
    requires n <= |records|
  {
    if n == 0 then []
    else
      var before := Batch(records, n - 1, isFinal);
      if records[n - 1].Some? && isFinal(records[n - 1].value).0
      then before + [Row(n - 1, isFinal(records[n - 1].value).1)] else before
  }

  /** First half of a flush, under the lock: pick the final rows. */
  function Collected(l: Ledger, isFinal: Finality): Ledger {
    l.(records := Judged(l.records, |l.records|, isFinal))
  }

  function CollectedBatch(l: Ledger, isFinal: Finality): seq<Row> {
    Batch(l.records, |l.records|, isFinal)
  }

  /** No further change to this record can matter, so its index entries go with it. */
  predicate CanPrune(r: FileRecord) {
    (r.errorCode != "" && r.trackID == "") || r.downloadEndTime != 0 || r.downloadError != ""
  }

  function LastOf<T>(s: seq<T>, n: nat): (last: seq<T>)
    ensures |last| == if |s| < n then |s| else n
    ensures forall k :: 0 <= k < |last| ==> last[k] == s[|s| - |last| + k]
  {
    if |s| > n then s[|s| - n..] else s
  }

  function CommitSlot(l: Ledger, i: nat): Ledger
    requires i < |l.records|
  {
    if l.records[i].None? then l
    else
      var r := l.records[i].value;
      l.(records := l.records[i := None],
         recentTail := LastOf(l.recentTail + [r], RECENT_TAIL_CAP),
         byKey := if CanPrune(r) then l.byKey - {Key(r)} else l.byKey,
         byBasename := if CanPrune(r) then l.byBasename - {r.filename} else l.byBasename,
         byFilenameID := if CanPrune(r) && r.filenameID != "" then l.byFilenameID - {r.filenameID}
                         else l.byFilenameID)
  }

  /** The first `n` rows of the batch have been released from memory. */
  function CommitSlots(l: Ledger, batch: seq<Row>, n: nat): (after: Ledger)
    requires n <= |batch|
    requires forall k :: 0 <= k < |batch| ==> batch[k].slot < |l.records|
    ensures |after.records| == |l.records|
  {
    if n == 0 then l else CommitSlot(CommitSlots(l, batch, n - 1), batch[n - 1].slot)
  }

  /** Second half of a flush, under the lock again: release what was written. */
  function Committed(l: Ledger, batch: seq<Row>): Ledger
    requires forall k :: 0 <= k < |batch| ==> batch[k].slot < |l.records|
  {
    var after := CommitSlots(l, batch, |batch|);
    after.(flushed := after.flushed + |batch|)
  }

  predicate PendingDownload(r: FileRecord) {
    r.trackID != "" && r.downloadEndTime == 0 && r.downloadError == ""
  }

  function Stamped(r: FileRecord, errCode: string): FileRecord {
    if PendingDownload(r) then r.(downloadError := errCode) else r
  }

  /** The first `n` slots with their pending downloads marked as failed. */
  function StampSlots(records: seq<Option<FileRecord>>, n: nat, errCode: string): seq<Option<FileRecord>>
    requires n <= |records|
  {
    seq(|records|, i requires 0 <= i < |records| =>
      if i < n && records[i].Some? then Some(Stamped(records[i].value, errCode)) else records[i])
  }

  function StampPending(l: Ledger, errCode: string): Ledger {
    if errCode == "" then l else l.(records := StampSlots(l.records, |l.records|, errCode))
  }

  /** The live records among the first `n` slots. */
  function LiveRecords(records: seq<Option<FileRecord>>, n: nat): seq<FileRecord>
    requires n <= |records|
  {
    if n == 0 then []
    else LiveRecords(records, n - 1) + if records[n - 1].Some? then [records[n - 1].value] else []
  }
}
