/** The in-memory report store: every method, under its lock, does to the fields
    what the ledger function of the same operation does to the value. */
module ReportStore {
  import opened Collections
  import opened TrackedNames
  import opened Ledger

  class Store {
    var records: seq<Option<FileRecord>>
    var byKey: map<string, nat>
    var byBasename: map<string, nat>
    var byFilenameID: map<string, nat>
    var byMinute: map<int, seq<nat>>
    var flushed: nat
    var hashVerified: nat
    var hashMismatch: nat
    var recentTail: seq<FileRecord>

    function View(): Ledger
      reads this
    {
      Ledger(records, byKey, byBasename, byFilenameID, byMinute, flushed, hashVerified, hashMismatch, recentTail)
    }

    constructor ()
      ensures View() == EMPTY
    {
      records, byKey, byBasename, byFilenameID, byMinute := [], map[], map[], map[], map[];
      flushed, hashVerified, hashMismatch, recentTail := 0, 0, 0, [];
    }

    method AddUpload(r: FileRecord)
      modifies this
      ensures View() == Uploaded(old(View()), r)
    {
      var idx := |records|;
      records := records + [Some(r)];
      byKey := byKey[r.user + "|" + r.filename := idx];
      byBasename := byBasename[r.filename := idx];
      if r.filenameID != "" {
        byFilenameID := byFilenameID[r.filenameID := idx];
      }
      if r.startTime != 0 {
        var m := r.startTime / NS_PER_MINUTE;
        byMinute := byMinute[m := (if m in byMinute then byMinute[m] else []) + [idx]];
      }
    }

    method AttachTrackID(user: string, filename: string, trackID: string, at: int, timedOut: bool)
      modifies this
      ensures View() == Tracked(old(View()), user, filename, trackID, at, timedOut)
    {
      var key := user + "|" + filename;
      if key !in byKey || byKey[key] >= |records| || records[byKey[key]].None? {
        return;
      }
      var r := records[byKey[key]].value;
      if timedOut {
        r := r.(trackID := "TRACKID_TIMEOUT");
        if r.errorCode == "" {
          r := r.(errorCode := "TRACKID_TIMEOUT");
        }
      } else {
        r := r.(trackID := trackID);
      }
      r := r.(trackIDAt := at);
      if r.endTime != 0 {
        r := r.(trackIDWait := at - r.endTime);
      }
      records := records[byKey[key] := Some(r)];
    }

    /** The body the three attach entry points share. */
    method AttachDownload(via: Lookup, d: DownloadResult) returns (attached: bool)
      modifies this
      ensures View() == Downloaded(old(View()), via, d)
      ensures attached == CanAttach(old(View()), via)
    {
      hide WithDownload, UserKey;
      var slot := Find(View(), via);
      if slot.None? || slot.value >= |records| || records[slot.value].None? {
        return false;
      }
      var r, compared := WithBytes(records[slot.value].value, d);
      if compared {
        if r.hashMatch {
          hashVerified := hashVerified + 1;
        } else {
          hashMismatch := hashMismatch + 1;
        }
      }
      records := records[slot.value := Some(r)];
      return true;
    }

    /** The record once the download is on it, and whether both sides had a hash to compare. */
    static method WithBytes(was: FileRecord, d: DownloadResult) returns (r: FileRecord, compared: bool)
      ensures r == WithDownload(was, d)
      ensures compared == Comparable(was, d) && (compared ==> (r.hashMatch <==> was.uploadSHA256 == d.sha256))
    {
      compared := false;
      var sha, matched, error, wait := was.downloadSHA256, was.hashMatch, d.error, was.downloadWait;
      if d.sha256 != "" {
        sha := d.sha256;
        if was.uploadSHA256 != "" {
          compared := true;
          matched := was.uploadSHA256 == sha;
          if !matched && error == "" {
            error := "HASH_MISMATCH";
          }
        }
      }
      if d.availableAt != 0 && d.startTime != 0 {
        wait := d.startTime - d.availableAt;
      }
      r := was.(downloadUser := d.downloadUser, downloadAvailableAt := d.availableAt,
                downloadStartTime := d.startTime, downloadEndTime := d.endTime,
                downloadSizeBytes := d.sizeBytes, downloadSpeed := d.speed, downloadError := error,
                downloadSHA256 := sha, hashMatch := matched, downloadWait := wait);
    }

    /** The part of a flush before the disk write. */
    method CollectFinalized(isFinal: Finality) returns (batch: seq<Row>)
      modifies this
      ensures View() == Collected(old(View()), isFinal)
      ensures batch == CollectedBatch(old(View()), isFinal)
    {
      batch := [];
      ghost var was := records;
      for i := 0 to |records|
        invariant records == Judged(was, i, isFinal)
        invariant batch == Batch(was, i, isFinal)
        invariant View() == old(View()).(records := records)
      {
        if records[i].Some? {
          var (final, r) := isFinal(records[i].value);
          records := records[i := Some(r)];
          if final {
            batch := batch + [Row(i, r)];
          }
        }
      }
    }

    /** One written record leaves memory, and its index entries with it if nothing can change it any more. */
    method ReleaseSlot(i: nat)
      requires i < |records|
      modifies this
      ensures View() == CommitSlot(old(View()), i)
    {
      if records[i].None? {
        return;
      }
      var rec := records[i].value;
      recentTail := recentTail + [rec];
      if |recentTail| > RECENT_TAIL_CAP {
        recentTail := recentTail[|recentTail| - RECENT_TAIL_CAP..];
      }
      if CanPrune(rec) {
        byKey := byKey - {Key(rec)};
        byBasename := byBasename - {rec.filename};
        if rec.filenameID != "" {
          byFilenameID := byFilenameID - {rec.filenameID};
        }
      }
      records := records[i := None];
    }

    /** The part of a flush after the disk write. */
    method CommitFlushed(batch: seq<Row>)
      requires forall k :: 0 <= k < |batch| ==> batch[k].slot < |records|
      modifies this
      ensures View() == Committed(old(View()), batch)
    {
      hide CommitSlot;
      for k := 0 to |batch|
        invariant View() == CommitSlots(old(View()), batch, k)
      {
        ReleaseSlot(batch[k].slot);
      }
      flushed := flushed + |batch|;
    }

    method StampPendingDownloads(errCode: string) returns (stamped: nat)
      modifies this`records
      ensures View() == StampPending(old(View()), errCode)
      ensures stamped == if errCode == "" then 0 else |PendingSlots(old(records), |old(records)|)|
    {
      stamped := 0;
      if errCode == "" {
        return;
      }
      ghost var was := records;
      for i := 0 to |records|
        invariant records == StampSlots(was, i, errCode)
        invariant stamped == |PendingSlots(was, i)|
      {
        OneMoreSlot(was, i);
        if records[i].Some? && PendingDownload(records[i].value) {
          records := records[i := Some(records[i].value.(downloadError := errCode))];
          stamped := stamped + 1;
        }
      }
    }

    method Snapshot() returns (out: seq<FileRecord>)
      ensures out == LiveRecords(records, |records|)
    {
      out := [];
      for i := 0 to |records|
        invariant out == LiveRecords(records, i)
      {
        if records[i].Some? {
          out := out + [records[i].value];
        }
      }
    }

    method LiveCount() returns (n: nat)
      ensures n == |LiveRecords(records, |records|)|
    {
      n := 0;
      for i := 0 to |records|
        invariant n == |LiveRecords(records, i)|
      {
        if records[i].Some? {
          n := n + 1;
        }
      }
    }

    /** `order` is the sort's choice of arrangement: by start time, ties in any order. */
    method SnapshotTail(n: int, order: seq<FileRecord>) returns (out: seq<FileRecord>)
      requires multiset(order) == multiset(recentTail + LiveRecords(records, |records|))
      requires forall i, j :: 0 <= i < j < |order| ==> order[i].startTime <= order[j].startTime
      ensures n <= 0 ==> out == []
      ensures n > 0 ==> out == LastOf(order, n)
    {
      if n <= 0 {
        return [];
      }
      out := order;
      if |out| > n {
        out := out[|out| - n..];
      }
    }

    method RecordsInMinute(minute: int) returns (out: seq<FileRecord>)
      requires forall m :: m in byMinute ==> forall k :: 0 <= k < |byMinute[m]| ==> byMinute[m][k] < |records|
      ensures out == AtSlots(records, if minute in byMinute then byMinute[minute] else [])
    {
      out := [];
      var idxs := if minute in byMinute then byMinute[minute] else [];
      for k := 0 to |idxs|
        invariant out == AtSlots(records, idxs[..k])
      {
        assert idxs[..k + 1][..k] == idxs[..k];
        if records[idxs[k]].Some? {
          out := out + [records[idxs[k]].value];
        }
      }
      assert idxs[..|idxs|] == idxs;
    }
  }

  /** The slots below `n` whose download is pending. */
  function PendingSlots(records: seq<Option<FileRecord>>, n: nat): set<nat>
    requires n <= |records|
  {
    set i: nat | i < n && records[i].Some? && PendingDownload(records[i].value)
  }

  lemma OneMoreSlot(records: seq<Option<FileRecord>>, i: nat)
    requires i < |records|
    ensures |PendingSlots(records, 0)| == 0
    ensures |PendingSlots(records, i + 1)|
            == |PendingSlots(records, i)| + if records[i].Some? && PendingDownload(records[i].value) then 1 else 0
  {
    assert PendingSlots(records, i + 1)
           == PendingSlots(records, i) + if records[i].Some? && PendingDownload(records[i].value) then {i} else {};
  }

  /** The live records at the given slots, in that order. */
  function AtSlots(records: seq<Option<FileRecord>>, slots: seq<nat>): seq<FileRecord>
    requires forall k :: 0 <= k < |slots| ==> slots[k] < |records|
  {
    if slots == [] then []
    else
      var last := slots[|slots| - 1];
      AtSlots(records, slots[..|slots| - 1]) + if records[last].Some? then [records[last].value] else []
  }
}
