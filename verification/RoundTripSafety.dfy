/** What holds in every reachable state of the round trip. */
module RoundTripSafety {
  import opened Collections
  import opened TrackedNames
  import opened Ledger
  import opened LedgerRuns
  import opened LedgerIndices
  import opened RoundTrip
  import Server = MockServer

  /** A file whose base name the run issued holds the bytes stored for that upload. */
  ghost predicate FilesFaithful(issued: map<string, Issue>, files: Server.Files) {
    forall p :: p in files && Base(p.name) in issued ==> files[p].content == issued[Base(p.name)].bytes
  }

  ghost predicate NamesOk(issued: map<string, Issue>) {
    && (forall n :: n in issued ==> n != "" && '#' !in n)
    && (forall a, b :: a in issued && b in issued && KeyFor(issued, a) == KeyFor(issued, b) ==> a == b)
  }

  /** A record belongs to a recorded upload of the run, and any hash on it is that of its bytes. */
  ghost predicate RecordOk(cfg: Config, issued: map<string, Issue>, unrecorded: set<string>, r: FileRecord) {
    && r.filename in issued && r.filename !in unrecorded
    && r.user == issued[r.filename].user && r.filenameID == ""
    && (issued[r.filename].ok ==> !FailedUpload(r))
    && (r.uploadSHA256 == "" || r.uploadSHA256 == cfg.hash(issued[r.filename].bytes))
    && (r.downloadSHA256 == "" || r.downloadSHA256 == cfg.hash(issued[r.filename].bytes))
    && (r.uploadSHA256 != "" && r.downloadSHA256 != "" ==> r.hashMatch)
  }

  ghost predicate LiveOk(cfg: Config, issued: map<string, Issue>, unrecorded: set<string>, records: seq<Option<FileRecord>>) {
    forall i :: 0 <= i < |records| && records[i].Some? ==> RecordOk(cfg, issued, unrecorded, records[i].value)
  }

  ghost predicate RowsOk(cfg: Config, issued: map<string, Issue>, unrecorded: set<string>, rows: seq<Row>) {
    forall i :: 0 <= i < |rows| ==> RecordOk(cfg, issued, unrecorded, rows[i].record)
  }

  ghost predicate BookOk(cfg: Config, issued: map<string, Issue>, unrecorded: set<string>, b: Book) {
    && Indexed(b) && LiveOk(cfg, issued, unrecorded, b.l.records)
    && RowsOk(cfg, issued, unrecorded, b.disk)
    && (!b.phase.Open? ==> RowsOk(cfg, issued, unrecorded, b.phase.batch))
    && b.l.hashMismatch == 0
  }

  ghost predicate TracksOk(issued: map<string, Issue>, watched: set<string>, results: seq<TrackResult>) {
    && (forall n :: n in watched ==> n in issued && issued[n].ok)
    && (forall i :: 0 <= i < |results| ==> TrackOk(issued, results[i]))
  }

  ghost predicate TrackOk(issued: map<string, Issue>, t: TrackResult) {
    t.name in issued && issued[t.name].ok && (t.trackID != "" || t.timedOut)
  }

  /** A fetched file came with the bytes stored for its upload, and with their hash if any. */
  ghost predicate JobOk(cfg: Config, issued: map<string, Issue>, job: Job) {
    match job
    case Idle => true
    case Claimed(name) => Base(name) in issued
    case Fetched(name, result, bytes) =>
      && Base(name) in issued && result.endTime != 0
      && (result.error == "" ==> bytes == issued[Base(name)].bytes)
      && (result.sha256 == "" || result.sha256 == cfg.hash(issued[Base(name)].bytes))
  }

  ghost predicate JobsOk(cfg: Config, issued: map<string, Issue>, workers: seq<Worker>) {
    forall i :: 0 <= i < |workers| ==> JobOk(cfg, issued, workers[i].job)
  }

  function SeenTotal(workers: seq<Worker>): nat {
    if workers == [] then 0 else SeenTotal(workers[..|workers| - 1]) + |workers[|workers| - 1].seen|
  }

  function Busy(workers: seq<Worker>): nat {
    if workers == [] then 0
    else Busy(workers[..|workers| - 1]) + if workers[|workers| - 1].job.Idle? then 0 else 1
  }

  lemma {:induction false} UpdateWorker(workers: seq<Worker>, w: nat, worker: Worker)
    requires w < |workers|
    ensures SeenTotal(workers[w := worker]) + |workers[w].seen| == SeenTotal(workers) + |worker.seen|
    ensures Busy(workers[w := worker]) + (if workers[w].job.Idle? then 0 else 1)
            == Busy(workers) + (if worker.job.Idle? then 0 else 1)
  {
    var after, n := workers[w := worker], |workers| - 1;
    if w < n {
      UpdateWorker(workers[..n], w, worker);
      assert after[..n] == workers[..n][w := worker];
    } else {
      assert after[..n] == workers[..n];
    }
  }

  /** Every name a worker has acted on was counted once, or is the one it is on. */
  ghost predicate Counted(s: World) {
    SeenTotal(s.workers) == s.completed + s.orphans + Busy(s.workers)
  }

  ghost predicate Inv(cfg: Config, s: World) {
    && NamesOk(s.issued) && s.unrecorded <= s.issued.Keys
    && FilesFaithful(s.issued, s.files)
    && BookOk(cfg, s.issued, s.unrecorded, s.book)
    && TracksOk(s.issued, s.watched, s.results)
    && JobsOk(cfg, s.issued, s.workers)
    && Counted(s)
  }

  // Names

  lemma {:induction false} HashMeaning(name: string, i: nat)
    requires i <= |name| && '#' !in name[..i] && (i < |name| ==> name[i] == '#')
    ensures Hash(name) == i
  {
  }

  lemma BaseOfPlain(name: string)
    requires '#' !in name
    ensures Base(name) == name
  {
  }

  lemma BaseOfTracked(name: string, tid: string)
    requires '#' !in name && name != ""
    ensures Base(Server.Tracked(name, tid)) == name && IsRouted(Server.Tracked(name, tid))
  {
    var t := Server.Tracked(name, tid);
    assert t[..|name|] == name;
    HashMeaning(t, |name|);
  }

  // The ledger part of each step

  /** Whatever an index lists is a recorded upload of the run. */
  lemma ListedIsRecorded(cfg: Config, s: World)
    requires Inv(cfg, s)
    ensures forall k :: k in s.book.l.byKey ==>
              exists n :: n in s.issued && n !in s.unrecorded && KeyFor(s.issued, n) == k
    ensures forall b :: b in s.book.l.byBasename ==> b in s.issued && b !in s.unrecorded
  {
    var l := s.book.l;
    forall k | k in l.byKey
      ensures exists n :: n in s.issued && n !in s.unrecorded && KeyFor(s.issued, n) == k
    {
      assert ListedFor(l.records, UserFile(), k, l.byKey[k]);
      assert KeyFor(s.issued, l.records[l.byKey[k]].value.filename) == k;
    }
    forall b | b in l.byBasename ensures b in s.issued && b !in s.unrecorded {
      assert ListedFor(l.records, Basename(), b, l.byBasename[b]);
    }
  }

  lemma RecordKeeps(cfg: Config, s: World, name: string, r: FileRecord)
    requires Inv(cfg, s) && CanStep(cfg, s, Record(name, r))
    ensures Fresh(s.book.l, r)
    ensures BookOk(cfg, s.issued, s.unrecorded - {name}, s.book.(l := Uploaded(s.book.l, r)))
  {
    hide Indexed;
    ListedIsRecorded(cfg, s);
    assert KeyFor(s.issued, name) == Key(r);
    AddIndexed(s.book, r);
  }

  lemma TrackTarget(cfg: Config, s: World, name: string)
    requires Inv(cfg, s) && name in s.issued && s.issued[name].ok
    ensures var k, l := KeyFor(s.issued, name), s.book.l;
            k in l.byKey && Live(l, l.byKey[k]) ==>
              l.records[l.byKey[k]].value.filename == name && !FailedUpload(l.records[l.byKey[k]].value)
  {
    var k, l := KeyFor(s.issued, name), s.book.l;
    if k in l.byKey && Live(l, l.byKey[k]) {
      assert ListedFor(l.records, UserFile(), k, l.byKey[k]);
      assert KeyFor(s.issued, l.records[l.byKey[k]].value.filename) == k;
    }
  }

  lemma TrackKeeps(cfg: Config, s: World, t: TrackResult, at: int)
    requires Inv(cfg, s) && TrackOk(s.issued, t)
    ensures Disciplined(s.book, Track(s.issued[t.name].user, t.name, t.trackID, at, t.timedOut))
    ensures BookOk(cfg, s.issued, s.unrecorded,
                   LedgerRuns.Apply(s.book, Track(s.issued[t.name].user, t.name, t.trackID, at, t.timedOut)))
  {
    TrackTarget(cfg, s, t.name);
    hide Indexed, RowsOk;
    var e := Track(s.issued[t.name].user, t.name, t.trackID, at, t.timedOut);
    TrackIndexed(s.book, e);
    var k, l := KeyFor(s.issued, t.name), s.book.l;
    if k in l.byKey && Live(l, l.byKey[k]) {
      LiveSet(cfg, s.issued, s.unrecorded, l, l.byKey[k],
              WithTrackID(l.records[l.byKey[k]].value, t.trackID, at, t.timedOut));
    }
  }

  lemma LiveSet(cfg: Config, issued: map<string, Issue>, unrecorded: set<string>, l: Ledger, i: nat, r: FileRecord)
    requires LiveOk(cfg, issued, unrecorded, l.records) && Live(l, i)
    requires RecordOk(cfg, issued, unrecorded, l.records[i].value) ==> RecordOk(cfg, issued, unrecorded, r)
    ensures LiveOk(cfg, issued, unrecorded, SetLive(l, i, r).records)
  {
  }

  /** The slot a fetched file attaches to is that of its own upload. */
  lemma AttachTarget(cfg: Config, s: World, name: string)
    requires Inv(cfg, s) && CanAttach(s.book.l, Via(name))
    ensures s.book.l.records[Find(s.book.l, Via(name)).value].value.filename == Base(name)
  {
    assert ListedFor(s.book.l.records, Basename(), Base(name), s.book.l.byBasename[Base(name)]);
  }

  lemma DownloadRecord(cfg: Config, issued: map<string, Issue>, unrecorded: set<string>, r: FileRecord, d: DownloadResult)
    requires RecordOk(cfg, issued, unrecorded, r)
    requires d.sha256 == "" || d.sha256 == cfg.hash(issued[r.filename].bytes)
    ensures RecordOk(cfg, issued, unrecorded, WithDownload(r, d))
    ensures Comparable(r, d) ==> r.uploadSHA256 == d.sha256
  {
  }

  lemma AttachKeeps(cfg: Config, s: World, name: string, d: DownloadResult)
    requires Inv(cfg, s) && Base(name) in s.issued && d.endTime != 0
    requires d.sha256 == "" || d.sha256 == cfg.hash(s.issued[Base(name)].bytes)
    ensures BookOk(cfg, s.issued, s.unrecorded, LedgerRuns.Apply(s.book, Attach(Via(name), d)))
  {
    hide Indexed, RecordOk, RowsOk, WithDownload;
    AttachIndexed(s.book, Attach(Via(name), d));
    var l := s.book.l;
    if CanAttach(l, Via(name)) {
      AttachTarget(cfg, s, name);
      var i := Find(l, Via(name)).value;
      DownloadRecord(cfg, s.issued, s.unrecorded, l.records[i].value, d);
      LiveSet(cfg, s.issued, s.unrecorded, l, i, WithDownload(l.records[i].value, d));
    }
  }

  lemma FinalRecord(cfg: Config, issued: map<string, Issue>, unrecorded: set<string>, r: FileRecord, now: int)
    requires RecordOk(cfg, issued, unrecorded, r)
    ensures RecordOk(cfg, issued, unrecorded, IsRecordFinal(true, cfg.grace, now)(r).1)
  {
  }

  lemma CollectLive(cfg: Config, issued: map<string, Issue>, unrecorded: set<string>, l: Ledger, now: int)
    requires LiveOk(cfg, issued, unrecorded, l.records)
    ensures LiveOk(cfg, issued, unrecorded, Collected(l, IsRecordFinal(true, cfg.grace, now)).records)
    ensures RowsOk(cfg, issued, unrecorded, CollectedBatch(l, IsRecordFinal(true, cfg.grace, now)))
  {
    hide RecordOk;
    var isFinal := IsRecordFinal(true, cfg.grace, now);
    var after, batch := Collected(l, isFinal).records, CollectedBatch(l, isFinal);
    forall i | 0 <= i < |after| && after[i].Some? ensures RecordOk(cfg, issued, unrecorded, after[i].value) {
      FinalRecord(cfg, issued, unrecorded, l.records[i].value, now);
    }
    BatchMeaning(l.records, |l.records|, isFinal);
    forall i | 0 <= i < |batch| ensures RecordOk(cfg, issued, unrecorded, batch[i].record) {
      assert FromSlot(l.records, isFinal, batch[i]);
      FinalRecord(cfg, issued, unrecorded, l.records[batch[i].slot].value, now);
    }
  }

  lemma CollectOk(cfg: Config, s: World, now: int)
    requires Inv(cfg, s) && s.book.phase.Open?
    ensures BookOk(cfg, s.issued, s.unrecorded, LedgerRuns.Apply(s.book, Collect(IsRecordFinal(true, cfg.grace, now))))
  {
    IsRecordFinalIsRunFinality(cfg.grace, now);
    hide Indexed, RunFinality, LiveOk, RowsOk, IsRecordFinal;
    CollectIndexed(s.book, IsRecordFinal(true, cfg.grace, now));
    CollectLive(cfg, s.issued, s.unrecorded, s.book.l, now);
  }

  lemma ReleaseEmpties(b: Book)
    requires Conserved(b) && b.phase.Written? && BatchInRange(b)
    ensures var m := Committed(b.l, b.phase.batch);
            && |m.records| == |b.l.records| && EmptiedAt(b.l.records, b.phase.batch, m.records)
            && m.hashMismatch == b.l.hashMismatch
  {
    var batch := b.phase.batch;
    CommitMeaning(b.l, batch, |batch|, b.released);
    CommitKeepsTallies(b.l, batch, |batch|);
    assert batch[..|batch|] == batch;
  }

  lemma EmptiedLive(cfg: Config, issued: map<string, Issue>, unrecorded: set<string>,
                    was: seq<Option<FileRecord>>, rows: seq<Row>, now: seq<Option<FileRecord>>)
    requires LiveOk(cfg, issued, unrecorded, was) && |now| == |was| && EmptiedAt(was, rows, now)
    ensures LiveOk(cfg, issued, unrecorded, now)
  {
  }

  lemma ReleaseOk(cfg: Config, s: World)
    requires Inv(cfg, s) && s.book.phase.Written? && BatchInRange(s.book)
    ensures BookOk(cfg, s.issued, s.unrecorded, LedgerRuns.Apply(s.book, Release))
  {
    ReleaseEmpties(s.book);
    ReleaseIndexed(s.book);
    hide Indexed, RowsOk, LiveOk, EmptiedAt, CommitSlots, Records;
    EmptiedLive(cfg, s.issued, s.unrecorded, s.book.l.records, s.book.phase.batch,
                Committed(s.book.l, s.book.phase.batch).records);
  }

  lemma WriteOk(cfg: Config, s: World)
    requires Inv(cfg, s) && s.book.phase.Holding? && BatchInRange(s.book)
    ensures BookOk(cfg, s.issued, s.unrecorded, LedgerRuns.Apply(s.book, WriteRows))
  {
    WriteKeeps(s.book);
  }

  /** The ledger part of any step keeps the book in order. */
  lemma BookKeeps(cfg: Config, s: World, e: Step)
    requires Inv(cfg, s) && CanStep(cfg, s, e) && BatchInRange(s.book)
    ensures BookOk(cfg, s.issued, if e.Record? then s.unrecorded - {e.name} else s.unrecorded, BookAfter(cfg, s, e))
  {
    hide BookOk, IsRecordFinal, Base, Find, FilesFaithful, NamesOk, Counted;
    match e
    case Record(name, r) => RecordKeeps(cfg, s, name, r);
    case Consume(at) => TrackKeeps(cfg, s, s.results[0], at);
    case AttachIt(w) => AttachKeeps(cfg, s, s.workers[w].job.name, s.workers[w].job.result);
    case CollectFinal(now) => CollectOk(cfg, s, now);
    case WriteBatch => WriteOk(cfg, s);
    case ReleaseBatch => ReleaseOk(cfg, s);
    case _ => BookUnchanged(cfg, s);
  }

  lemma BookUnchanged(cfg: Config, s: World)
    requires Inv(cfg, s)
    ensures BookOk(cfg, s.issued, s.unrecorded, s.book)
  {
  }

  /** A new name leaves everything already known of the others as it was. */
  lemma UploadKeeps(cfg: Config, s: World, e: Step)
    requires Inv(cfg, s) && e.Upload? && CanStep(cfg, s, e) && BatchInRange(s.book)
    ensures Inv(cfg, TakeStep(cfg, s, e))
  {
    hide Indexed;
    var t := TakeStep(cfg, s, e);
    BaseOfPlain(e.name);
    assert FilesFaithful(t.issued, t.files);
    assert NamesOk(t.issued) by {
      forall a, b | a in t.issued && b in t.issued && KeyFor(t.issued, a) == KeyFor(t.issued, b) ensures a == b {
        if a in s.issued && b in s.issued {
          assert KeyFor(s.issued, a) == KeyFor(s.issued, b);
        }
      }
    }
    LaterIssue(cfg, s, e.name, e.issue);
  }

  lemma LaterIssue(cfg: Config, s: World, name: string, issue: Issue)
    requires Inv(cfg, s) && name !in s.issued
    ensures BookOk(cfg, s.issued[name := issue], s.unrecorded + {name}, s.book)
    ensures TracksOk(s.issued[name := issue], s.watched, s.results)
    ensures JobsOk(cfg, s.issued[name := issue], s.workers)
  {
    hide Indexed;
    var issued, unrecorded := s.issued[name := issue], s.unrecorded + {name};
    LaterRows(cfg, s, name, issue, s.book.disk);
    if !s.book.phase.Open? {
      LaterRows(cfg, s, name, issue, s.book.phase.batch);
    }
    assert forall i :: 0 <= i < |s.results| ==> TrackOk(s.issued, s.results[i]) ==> TrackOk(issued, s.results[i]);
    assert forall i :: 0 <= i < |s.workers| ==>
      JobOk(cfg, s.issued, s.workers[i].job) ==> JobOk(cfg, issued, s.workers[i].job);
  }

  lemma LaterRows(cfg: Config, s: World, name: string, issue: Issue, rows: seq<Row>)
    requires name !in s.issued && RowsOk(cfg, s.issued, s.unrecorded, rows)
    ensures RowsOk(cfg, s.issued[name := issue], s.unrecorded + {name}, rows)
  {
  }

  lemma PromoteKeepsFiles(cfg: Config, s: World, e: Step)
    requires Inv(cfg, s) && e.Promote? && CanStep(cfg, s, e)
    ensures FilesFaithful(s.issued, Server.PromoteOne(s.files, cfg.routes, e.path, e.tid, e.now))
  {
    BaseOfPlain(e.path.name);
    BaseOfTracked(e.path.name, e.tid);
  }

  lemma FilesKeep(cfg: Config, s: World, e: Step)
    requires Inv(cfg, s) && CanStep(cfg, s, e) && BatchInRange(s.book) && !e.Upload?
    ensures FilesFaithful(s.issued, TakeStep(cfg, s, e).files)
  {
    hide BookOk, BookAfter, WorkerAfter, Attaches, TracksOk, JobsOk, Counted;
    if e.Promote? {
      PromoteKeepsFiles(cfg, s, e);
      hide CanStep, Base;
    } else if !e.Foreign? {
      hide Base, CanStep;
    }
  }

  lemma TracksKeep(cfg: Config, s: World, e: Step)
    requires Inv(cfg, s) && CanStep(cfg, s, e) && BatchInRange(s.book) && !e.Upload?
    ensures var t := TakeStep(cfg, s, e); TracksOk(s.issued, t.watched, t.results)
  {
    hide BookOk, BookAfter, JobsOk, FilesFaithful, NamesOk, Base, WorkerAfter, Attaches, Counted;
    var t := TakeStep(cfg, s, e);
    forall i | 0 <= i < |t.results| ensures TrackOk(s.issued, t.results[i]) {
      if e.Consume? {
        assert t.results[i] == s.results[i + 1];
      }
    }
  }

  lemma JobKeeps(cfg: Config, s: World, e: Step)
    requires Inv(cfg, s) && CanStep(cfg, s, e) && OfWorker(e)
    ensures e.w < |s.workers| && JobOk(cfg, s.issued, WorkerAfter(cfg, s, e).job)
  {
    ListedIsRecorded(cfg, s);
    hide BookOk;
    assert e.w < |s.workers| && JobOk(cfg, s.issued, s.workers[e.w].job);
  }

  /** A worker's step settles a name, or takes one up, or finishes the one it is on. */
  lemma OneActed(cfg: Config, s: World, e: Step)
    requires CanStep(cfg, s, e) && OfWorker(e) && e.w < |s.workers|
    ensures var was, now := s.workers[e.w], WorkerAfter(cfg, s, e);
            |now.seen| + (if was.job.Idle? then 0 else 1)
            == |was.seen| + (if now.job.Idle? then 0 else 1) + (if e.Reject? || e.AttachIt? then 1 else 0)
    ensures Attaches(s, e) ==> e.AttachIt?
  {
    hide Base, IsRouted;
  }

  lemma CountKeeps(cfg: Config, s: World, e: Step)
    requires Inv(cfg, s) && CanStep(cfg, s, e) && BatchInRange(s.book) && !e.Upload?
    ensures Counted(TakeStep(cfg, s, e))
    ensures JobsOk(cfg, s.issued, TakeStep(cfg, s, e).workers)
  {
    hide BookOk, BookAfter, Base, IsRouted, FilesFaithful, NamesOk, TracksOk, JobOk;
    if OfWorker(e) {
      JobKeeps(cfg, s, e);
      UpdateWorker(s.workers, e.w, WorkerAfter(cfg, s, e));
      OneActed(cfg, s, e);
      hide CanStep, WorkerAfter, Attaches;
    } else {
      hide WorkerAfter, CanStep;
    }
  }

  lemma RestKept(cfg: Config, s: World, e: Step)
    requires CanStep(cfg, s, e) && BatchInRange(s.book) && !e.Upload?
    ensures var t := TakeStep(cfg, s, e);
            && t.issued == s.issued && t.book == BookAfter(cfg, s, e)
            && t.unrecorded == if e.Record? then s.unrecorded - {e.name} else s.unrecorded
  {
    hide BookAfter, WorkerAfter, Attaches;
  }

  /** No step of any party breaks the invariant. */
  lemma StepKeepsInv(cfg: Config, s: World, e: Step)
    requires Inv(cfg, s) && CanStep(cfg, s, e) && BatchInRange(s.book)
    ensures Inv(cfg, TakeStep(cfg, s, e))
  {
    if e.Upload? {
      UploadKeeps(cfg, s, e);
    } else {
      BookKeeps(cfg, s, e);
      FilesKeep(cfg, s, e);
      TracksKeep(cfg, s, e);
      CountKeeps(cfg, s, e);
      RestKept(cfg, s, e);
      hide BookOk, BookAfter, JobsOk, TracksOk, FilesFaithful, Counted, CanStep, NamesOk, TakeStep;
    }
  }

  lemma {:induction false} NobodyBusy(workers: seq<Worker>)
    requires forall i :: 0 <= i < |workers| ==> workers[i].seen == {} && workers[i].job.Idle?
    ensures SeenTotal(workers) == 0 && Busy(workers) == 0
  {
    if workers != [] {
      NobodyBusy(workers[..|workers| - 1]);
    }
  }

  lemma InitInv(cfg: Config, s: World)
    requires Init(s)
    ensures Inv(cfg, s)
  {
    NobodyBusy(s.workers);
    assert Indexed(BLANK);
  }

  /** A run of the whole system, its steps interleaved in any way. */
  ghost predicate IsRun(cfg: Config, run: seq<World>, steps: seq<Step>) {
    && |run| == |steps| + 1 && Init(run[0])
    && forall i :: 0 <= i < |steps| ==> StepsTo(cfg, run[i], steps[i], run[i + 1])
  }

  ghost predicate StepsTo(cfg: Config, s: World, e: Step, t: World) {
    CanStep(cfg, s, e) && BatchInRange(s.book) && t == TakeStep(cfg, s, e)
  }

  lemma {:induction false} RunInv(cfg: Config, run: seq<World>, steps: seq<Step>, n: nat)
    requires IsRun(cfg, run, steps) && n < |run|
    ensures Inv(cfg, run[n])
  {
    hide Inv, TakeStep, CanStep;
    if n == 0 {
      InitInv(cfg, run[0]);
    } else {
      RunInv(cfg, run, steps, n - 1);
      assert StepsTo(cfg, run[n - 1], steps[n - 1], run[n]);
      StepKeepsInv(cfg, run[n - 1], steps[n - 1]);
    }
  }

  /** Both hashes, when a row has both, are equal and say so. */
  predicate HashesAgree(r: FileRecord) {
    r.uploadSHA256 != "" && r.downloadSHA256 != "" ==> r.uploadSHA256 == r.downloadSHA256 && r.hashMatch
  }

  /** With a byte-faithful server no run ever counts a hash mismatch, every row with two hashes has equal
      ones, and the names acted on are the completed, the orphaned and those in hand. */
  lemma NoMismatchEver(cfg: Config, run: seq<World>, steps: seq<Step>, n: nat)
    requires IsRun(cfg, run, steps) && n < |run|
    ensures run[n].book.l.hashMismatch == 0
    ensures forall i :: 0 <= i < |run[n].book.l.records| && run[n].book.l.records[i].Some? ==>
              HashesAgree(run[n].book.l.records[i].value)
    ensures forall i :: 0 <= i < |run[n].book.disk| ==> HashesAgree(run[n].book.disk[i].record)
    ensures SeenTotal(run[n].workers) == run[n].completed + run[n].orphans + Busy(run[n].workers)
  {
    RunInv(cfg, run, steps, n);
    hide Indexed, FilesFaithful, NamesOk, TracksOk, JobsOk;
  }

  /** The ledger's own guarantees hold of every run of the system: exact indices, explained rows,
      and every upload in memory or on disk exactly once. */
  lemma LedgerStaysInOrder(cfg: Config, run: seq<World>, steps: seq<Step>, n: nat)
    requires IsRun(cfg, run, steps) && n < |run|
    ensures IndicesExact(run[n].book.l) && AllExplained(run[n].book.disk) && Conserved(run[n].book)
  {
    RunInv(cfg, run, steps, n);
    hide IndicesExact, AllExplained, Conserved;
  }

  /** The slot an attach goes to is that of the upload whose bytes were fetched. */
  ghost predicate LandsOnItsUpload(s: World, w: nat)
    requires Attaches(s, AttachIt(w))
  {
    var job := s.workers[w].job;
    var r := s.book.l.records[Find(s.book.l, Via(job.name)).value].value;
    && r.filename == Base(job.name) && r.filename in s.issued && r.user == s.issued[r.filename].user
    && (job.result.error == "" ==> job.bytes == s.issued[r.filename].bytes)
  }

  lemma AttachLandsOnItsUpload(cfg: Config, run: seq<World>, steps: seq<Step>, n: nat, w: nat)
    requires IsRun(cfg, run, steps) && n < |run| && Attaches(run[n], AttachIt(w))
    ensures LandsOnItsUpload(run[n], w)
  {
    RunInv(cfg, run, steps, n);
    var s := run[n];
    AttachTarget(cfg, s, s.workers[w].job.name);
    assert JobOk(cfg, s.issued, s.workers[w].job);
    hide Indexed, FilesFaithful, NamesOk, TracksOk, RowsOk, Base;
  }

  /** The upload called `name` is on record and its record is still in memory. */
  ghost predicate OnRecord(s: World, name: string) {
    exists i :: 0 <= i < |s.book.l.records| && s.book.l.records[i].Some? && s.book.l.records[i].value.filename == name
  }

  lemma OursIff(cfg: Config, s: World, name: string)
    requires Inv(cfg, s) && IsRouted(name)
    ensures Ours(s, name) <==> OnRecord(s, Base(name))
  {
    var l, base := s.book.l, Base(name);
    if base in l.byBasename {
      assert ListedFor(l.records, Basename(), base, l.byBasename[base]);
    }
    if i :| 0 <= i < |l.records| && l.records[i].Some? && l.records[i].value.filename == base {
      assert FiledAt(l.byBasename, Basename()(l.records[i].value), i);
    }
  }

  lemma ClaimsIfOurs(cfg: Config, s: World, w: nat)
    requires Considers(s, w)
    ensures CanStep(cfg, s, Claim(w)) <==> Ours(s, Head(s, w))
    ensures CanStep(cfg, s, Reject(w)) <==> !Ours(s, Head(s, w))
  {
    hide Ours;
  }

  /** A worker claims a promoted file if and only if its upload is on record and the record still in memory;
      otherwise, when it comes too early or after the row was flushed, it can only reject the file. */
  lemma ClaimedIffOnRecord(cfg: Config, run: seq<World>, steps: seq<Step>, n: nat, w: nat)
    requires IsRun(cfg, run, steps) && n < |run| && Considers(run[n], w)
    ensures CanStep(cfg, run[n], Claim(w)) <==> OnRecord(run[n], Base(Head(run[n], w)))
    ensures CanStep(cfg, run[n], Reject(w)) <==> !OnRecord(run[n], Base(Head(run[n], w)))
  {
    RunInv(cfg, run, steps, n);
    var s := run[n];
    ClaimsIfOurs(cfg, s, w);
    hide IsRun, Inv, OnRecord, CanStep, Ours;
    OursIff(cfg, s, Head(s, w));
  }

  /** In particular one that reaches the file before its upload is on record rejects it. */
  lemma EarlyPollRejects(cfg: Config, run: seq<World>, steps: seq<Step>, n: nat, w: nat)
    requires IsRun(cfg, run, steps) && n < |run|
    requires Considers(run[n], w) && Base(Head(run[n], w)) in run[n].unrecorded
    ensures CanStep(cfg, run[n], Reject(w)) && !CanStep(cfg, run[n], Claim(w))
  {
    RunInv(cfg, run, steps, n);
    ListedIsRecorded(cfg, run[n]);
  }

  lemma SeenStays(cfg: Config, s: World, e: Step, w: nat, name: string)
    requires CanStep(cfg, s, e) && BatchInRange(s.book) && w < |s.workers| && name in s.workers[w].seen
    ensures w < |TakeStep(cfg, s, e).workers| && name in TakeStep(cfg, s, e).workers[w].seen
  {
    hide BookAfter;
  }

  /** What a worker has once acted on it never claims again, so a file rejected too early stays an orphan. */
  lemma {:induction false} NeverClaimedAgain(cfg: Config, run: seq<World>, steps: seq<Step>, n: nat, m: nat, w: nat, name: string)
    requires IsRun(cfg, run, steps) && n <= m < |run| && w < |run[n].workers| && name in run[n].workers[w].seen
    ensures w < |run[m].workers| && name in run[m].workers[w].seen
    ensures Considers(run[m], w) ==> Head(run[m], w) != name
    decreases m
  {
    hide TakeStep, CanStep, BatchInRange;
    if n < m {
      NeverClaimedAgain(cfg, run, steps, n, m - 1, w, name);
      assert StepsTo(cfg, run[m - 1], steps[m - 1], run[m]);
      SeenStays(cfg, run[m - 1], steps[m - 1], w, name);
    }
  }

  /** The fate of a promoted file is settled by the first poll that acts on it. If its upload is on record
      then, the worker takes it on; if not, it is counted an orphan, and no later poll of that worker ever
      considers it again. */
  lemma OrphanedForGoodIff(cfg: Config, run: seq<World>, steps: seq<Step>, n: nat, m: nat, w: nat)
    requires IsRun(cfg, run, steps) && n < m < |run| && Considers(run[n], w)
    requires steps[n] == Claim(w) || steps[n] == Reject(w)
    ensures steps[n] == Reject(w) <==> !OnRecord(run[n], Base(Head(run[n], w)))
    ensures run[n + 1].orphans == run[n].orphans + if OnRecord(run[n], Base(Head(run[n], w))) then 0 else 1
    ensures w < |run[m].workers| && (Considers(run[m], w) ==> Head(run[m], w) != Head(run[n], w))
  {
    hide BookAfter, OnRecord, BatchInRange;
    ClaimedIffOnRecord(cfg, run, steps, n, w);
    assert StepsTo(cfg, run[n], steps[n], run[n + 1]);
    NeverClaimedAgain(cfg, run, steps, n + 1, m, w, Head(run[n], w));
  }

  // Routing

  /** Who polls for the uploads of `user`: whoever he is routed to, himself when he is not paired. */
  ghost predicate Receives(cfg: Config, user: string, receiver: string) {
    && (user in cfg.routes && cfg.routes[user] != "" ==> receiver == cfg.routes[user])
    && (user !in cfg.routes || cfg.routes[user] == "" ==> receiver == user)
  }

  /** The worker is free and has not acted on `name`. */
  predicate Free(s: World, w: nat, name: string) {
    w < |s.workers| && s.workers[w].job.Idle? && s.workers[w].todo == [] && name !in s.workers[w].seen
  }

  /** What a worker of the receiver does next with a promoted upload. */
  function Collecting(path: Server.Path, tid: string, now: int, w: nat, d: DownloadResult, evict: bool): seq<Step> {
    [ Promote(path, tid, now), List(w, [path.name + "#" + tid]), Claim(w), Fetch(w, d, evict) ]
  }

  ghost predicate Follows(cfg: Config, run: seq<World>, steps: seq<Step>) {
    |run| == |steps| + 1 && forall i :: 0 <= i < |steps| ==> StepsTo(cfg, run[i], steps[i], run[i + 1])
  }

  lemma PromotedTo(cfg: Config, s: World, path: Server.Path, tid: string, now: int, receiver: string)
    requires CanStep(cfg, s, Promote(path, tid, now)) && BatchInRange(s.book) && Receives(cfg, path.user, receiver)
    ensures var t, at := TakeStep(cfg, s, Promote(path, tid, now)), Server.Path(receiver, "outbox", path.name + "#" + tid);
            && t.book == s.book && t.workers == s.workers
            && at in t.files && t.files[at].content == s.files[path].content
  {
  }

  lemma FreeLists(cfg: Config, s: World, w: nat, name: string)
    requires Free(s, w, name) && Outbox(s.workers[w].user, name) in s.files && BatchInRange(s.book)
    ensures CanStep(cfg, s, List(w, [name]))
    ensures var t := TakeStep(cfg, s, List(w, [name]));
            t.book == s.book && t.files == s.files && t.workers == s.workers[w := s.workers[w].(todo := [name])]
  {
  }

  lemma ListedClaims(cfg: Config, s: World, w: nat)
    requires Considers(s, w) && Ours(s, Head(s, w)) && BatchInRange(s.book)
    ensures CanStep(cfg, s, Claim(w))
    ensures var t := TakeStep(cfg, s, Claim(w));
            && t.book == s.book && t.files == s.files && |t.workers| == |s.workers|
            && t.workers[w].job == Claimed(Head(s, w)) && t.workers[w].user == s.workers[w].user
  {
  }

  lemma ClaimedFetches(cfg: Config, s: World, w: nat, d: DownloadResult, evict: bool)
    requires w < |s.workers| && s.workers[w].job.Claimed? && BatchInRange(s.book)
    requires Outbox(s.workers[w].user, s.workers[w].job.name) in s.files && d.endTime != 0 && d.error == ""
    requires d.sha256 == if cfg.verify then cfg.hash(s.files[Outbox(s.workers[w].user, s.workers[w].job.name)].content) else ""
    ensures CanStep(cfg, s, Fetch(w, d, evict))
    ensures var t := TakeStep(cfg, s, Fetch(w, d, evict));
            && |t.workers| == |s.workers|
            && t.workers[w].job == Fetched(s.workers[w].job.name, d, s.files[Outbox(s.workers[w].user, s.workers[w].job.name)].content)
  {
  }

  lemma FourSteps(cfg: Config, s: World, path: Server.Path, tid: string, now: int, w: nat, d: DownloadResult, evict: bool)
    returns (next: seq<World>)
    requires CanStep(cfg, s, Promote(path, tid, now)) && BatchInRange(s.book)
    requires Free(s, w, path.name + "#" + tid) && Receives(cfg, path.user, s.workers[w].user)
    requires IsRouted(path.name + "#" + tid) && Ours(s, path.name + "#" + tid)
    requires d.endTime != 0 && d.error == "" && d.sha256 == if cfg.verify then cfg.hash(s.files[path].content) else ""
    ensures Follows(cfg, next, Collecting(path, tid, now, w, d, evict)) && next[0] == s
    ensures w < |next[4].workers|
    ensures next[4].workers[w].job == Fetched(path.name + "#" + tid, d, s.files[path].content)
  {
    var name := path.name + "#" + tid;
    PromotedTo(cfg, s, path, tid, now, s.workers[w].user);
    hide BatchInRange, TakeStep, CanStep, IsRouted, Base, Receives;
    var promoted := TakeStep(cfg, s, Promote(path, tid, now));
    FreeLists(cfg, promoted, w, name);
    var listed := TakeStep(cfg, promoted, List(w, [name]));
    ListedClaims(cfg, listed, w);
    var claimed := TakeStep(cfg, listed, Claim(w));
    ClaimedFetches(cfg, claimed, w, d, evict);
    next := [s, promoted, listed, claimed, TakeStep(cfg, claimed, Fetch(w, d, evict))];
  }

  /** In every reachable state: an upload about to be promoted can be listed, claimed and fetched by a free worker
      of the user its sender is routed to, once its record is in memory, and what he gets is the bytes uploaded. */
  lemma ReceiverFetchesIt(cfg: Config, run: seq<World>, steps: seq<Step>, n: nat,
                          path: Server.Path, tid: string, now: int, w: nat, d: DownloadResult, evict: bool)
    returns (next: seq<World>)
    requires IsRun(cfg, run, steps) && n < |run| && CanStep(cfg, run[n], Promote(path, tid, now))
    requires Free(run[n], w, path.name + "#" + tid) && Receives(cfg, path.user, run[n].workers[w].user)
    requires OnRecord(run[n], path.name)
    requires d.endTime != 0 && d.error == "" && d.sha256 == if cfg.verify then cfg.hash(run[n].files[path].content) else ""
    ensures Follows(cfg, next, Collecting(path, tid, now, w, d, evict)) && next[0] == run[n]
    ensures w < |next[4].workers|
    ensures path.name in run[n].issued
    ensures next[4].workers[w].job == Fetched(path.name + "#" + tid, d, run[n].issued[path.name].bytes)
  {
    RunInv(cfg, run, steps, n);
    StoredBytes(cfg, run[n], path);
    BaseOfTracked(path.name, tid);
    OursIff(cfg, run[n], path.name + "#" + tid);
    HeldInRange(cfg, run[n]);
    hide Inv, OnRecord, IsRun, BatchInRange, TakeStep, CanStep, Base, Receives, Ours, Free;
    next := FourSteps(cfg, run[n], path, tid, now, w, d, evict);
  }

  lemma StoredBytes(cfg: Config, s: World, path: Server.Path)
    requires Inv(cfg, s) && OnRecord(s, path.name) && path in s.files && '#' !in path.name
    ensures path.name in s.issued && s.files[path].content == s.issued[path.name].bytes
  {
    BaseOfPlain(path.name);
    assert LiveOk(cfg, s.issued, s.unrecorded, s.book.l.records);
  }

  lemma HeldInRange(cfg: Config, s: World)
    requires Inv(cfg, s)
    ensures BatchInRange(s.book)
  {
    assert Conserved(s.book);
  }
}
