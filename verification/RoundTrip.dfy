/** The whole round trip of a run in track-id mode: uploads land in the sender's inbox, the server
    promotes them, the watcher reports ids, workers poll outboxes, fetch and attach, and the flusher
    streams rows — every step interleaved with every other. */
module RoundTrip {
  import opened Collections
  import opened TrackedNames
  import opened Ledger
  import opened LedgerRuns
  import opened LedgerIndices
  import Server = MockServer

  type Bytes = Server.Bytes

  /** `hash` is any function of the bytes; `verify` turns hashing on. */
  datatype Config = Config(hash: Bytes -> string, verify: bool, grace: int, routes: Server.Routes)

  /** One attempted upload: who sent it, what the server stored under its name, and whether it succeeded. */
  datatype Issue = Issue(user: string, bytes: Bytes, ok: bool)

  datatype TrackResult = TrackResult(name: string, trackID: string, timedOut: bool)

  /** Where a download worker stands with the file it is on. */
  datatype Job = Idle | Claimed(name: string) | Fetched(name: string, result: DownloadResult, bytes: Bytes)

  datatype Worker = Worker(user: string, seen: set<string>, todo: seq<string>, job: Job)

  datatype World = World(
    book: Book, files: Server.Files,
    issued: map<string, Issue>, unrecorded: set<string>,
    watched: set<string>, results: seq<TrackResult>,
    workers: seq<Worker>, completed: nat, orphans: nat)

  datatype Step =
    | Upload(name: string, issue: Issue, stored: Option<Server.File>)
    | Record(name: string, r: FileRecord)
    | Promote(path: Server.Path, tid: string, now: int)
    | Detect(name: string, tid: string, delivered: bool)
    | Expire(name: string, delivered: bool)
    | Consume(at: int)
    | List(w: nat, listing: seq<string>)
    | Skip(w: nat)
    | Reject(w: nat)
    | Claim(w: nat)
    | Fetch(w: nat, result: DownloadResult, evict: bool)
    | FetchFails(w: nat, result: DownloadResult)
    | AttachIt(w: nat)
    | CollectFinal(now: int)
    | WriteBatch
    | ReleaseBatch
    | Foreign(path: Server.Path, file: Server.File)

  /** The name without its track-id suffix. */
  function Base(name: string): string {
    if IsRouted(name) then name[..Hash(name)] else name
  }

  function Outbox(user: string, name: string): Server.Path {
    Server.Path(user, "outbox", name)
  }

  function KeyFor(issued: map<string, Issue>, name: string): string
    requires name in issued
  {
    UserKey(issued[name].user, name)
  }

  /** A generated name: no '#', unlike any other of the run, and unlike any file on the server. */
  ghost predicate IsNewName(s: World, name: string, user: string) {
    && name != "" && '#' !in name && name !in s.issued
    && (forall n :: n in s.issued ==> KeyFor(s.issued, n) != UserKey(user, name))
    && (forall p :: p in s.files ==> Base(p.name) != name)
  }

  /** The record an upload goroutine adds when it is done. */
  predicate RecordsUpload(cfg: Config, issue: Issue, name: string, r: FileRecord) {
    && r.user == issue.user && r.filename == name && r.filenameID == "" && r.trackID == ""
    && r.downloadSHA256 == "" && !r.hashMatch && r.downloadEndTime == 0 && r.downloadError == ""
    && (issue.ok ==> r.errorCode == "" && r.uploadSHA256 == if cfg.verify then cfg.hash(issue.bytes) else "")
    && (!issue.ok ==> r.errorCode != "" && r.uploadSHA256 == "")
  }

  ghost predicate CanStep(cfg: Config, s: World, e: Step) {
    match e
    case Upload(name, issue, stored) =>
      && IsNewName(s, name, issue.user)
      && (if stored.Some? then stored.value.content == issue.bytes else !issue.ok)
    case Record(name, r) => name in s.unrecorded && name in s.issued && RecordsUpload(cfg, s.issued[name], name, r)
    case Promote(path, tid, _) =>
      && path in s.files && s.files[path].completedAt != 0
      && path.folder == "inbox" && '#' !in path.name && path.name != "" && tid != ""
    case Detect(name, tid, _) =>
      name in s.watched && name in s.issued && tid != ""
      && Server.Path(s.issued[name].user, "inbox", Server.Tracked(name, tid)) in s.files
    case Expire(name, _) => name in s.watched
    case Consume(_) => s.results != [] && s.results[0].name in s.issued
    case List(w, listing) =>
      w < |s.workers| && s.workers[w].job.Idle? && s.workers[w].todo == []
      && forall i :: 0 <= i < |listing| ==> Outbox(s.workers[w].user, listing[i]) in s.files
    case Skip(w) => NextUp(s, w) && (Head(s, w) in s.workers[w].seen || !IsRouted(Head(s, w)))
    case Reject(w) => Considers(s, w) && !Ours(s, Head(s, w))
    case Claim(w) => Considers(s, w) && Ours(s, Head(s, w))
    case Fetch(w, result, _) =>
      && w < |s.workers| && s.workers[w].job.Claimed?
      && Outbox(s.workers[w].user, s.workers[w].job.name) in s.files
      && result.endTime != 0 && result.error == ""
      && result.sha256 == if cfg.verify then cfg.hash(s.files[Outbox(s.workers[w].user, s.workers[w].job.name)].content) else ""
    case FetchFails(w, result) =>
      w < |s.workers| && s.workers[w].job.Claimed? && result.endTime != 0 && result.error != "" && result.sha256 == ""
    case AttachIt(w) => w < |s.workers| && s.workers[w].job.Fetched?
    case CollectFinal(_) => s.book.phase.Open?
    case WriteBatch => s.book.phase.Holding?
    case ReleaseBatch => s.book.phase.Written?
    case Foreign(path, _) => Base(path.name) !in s.issued
  }

  predicate NextUp(s: World, w: nat) {
    w < |s.workers| && s.workers[w].job.Idle? && s.workers[w].todo != []
  }

  function Head(s: World, w: nat): string
    requires NextUp(s, w)
  {
    s.workers[w].todo[0]
  }

  predicate Considers(s: World, w: nat) {
    NextUp(s, w) && IsRouted(Head(s, w)) && Head(s, w) !in s.workers[w].seen
  }

  /** The ownership check: this run has a record on file for the basename. */
  predicate Ours(s: World, name: string) {
    Base(name) != "" && Base(name) in s.book.l.byBasename
  }

  function Via(name: string): Lookup {
    ByBasename(Base(name))
  }

  /** The ledger event a step performs, if it touches the ledger. */
  function LedgerEvent(cfg: Config, s: World, e: Step): Option<Event> {
    match e
    case Record(_, r) => Some(Add(r))
    case Consume(at) =>
      if s.results == [] || s.results[0].name !in s.issued then None
      else Some(Track(s.issued[s.results[0].name].user, s.results[0].name, s.results[0].trackID, at, s.results[0].timedOut))
    case AttachIt(w) =>
      if w < |s.workers| && s.workers[w].job.Fetched?
      then Some(Attach(Via(s.workers[w].job.name), s.workers[w].job.result)) else None
    case CollectFinal(now) => Some(Collect(IsRecordFinal(true, cfg.grace, now)))
    case WriteBatch => Some(WriteRows)
    case ReleaseBatch => Some(Release)
    case _ => None
  }

  ghost function BookAfter(cfg: Config, s: World, e: Step): Book
    requires CanStep(cfg, s, e) && BatchInRange(s.book)
  {
    var le := LedgerEvent(cfg, s, e);
    if le.Some? && LedgerRuns.Enabled(s.book, le.value) then LedgerRuns.Apply(s.book, le.value) else s.book
  }

  predicate OfWorker(e: Step) {
    e.List? || e.Skip? || e.Reject? || e.Claim? || e.Fetch? || e.FetchFails? || e.AttachIt?
  }

  /** The worker a step moves, after it. */
  ghost function WorkerAfter(cfg: Config, s: World, e: Step): Worker
    requires CanStep(cfg, s, e) && OfWorker(e)
  {
    var worker := s.workers[e.w];
    match e
    case List(_, listing) => worker.(todo := listing)
    case Skip(_) => worker.(todo := worker.todo[1..])
    case Reject(_) => worker.(todo := worker.todo[1..], seen := worker.seen + {worker.todo[0]})
    case Claim(_) =>
      worker.(todo := worker.todo[1..], seen := worker.seen + {worker.todo[0]}, job := Claimed(worker.todo[0]))
    case Fetch(_, result, _) =>
      worker.(job := Fetched(worker.job.name, result, s.files[Outbox(worker.user, worker.job.name)].content))
    case FetchFails(_, result) => worker.(job := Fetched(worker.job.name, result, []))
    case AttachIt(_) => worker.(job := Idle)
  }

  predicate Attaches(s: World, e: Step) {
    e.AttachIt? && e.w < |s.workers| && s.workers[e.w].job.Fetched?
    && CanAttach(s.book.l, Via(s.workers[e.w].job.name))
  }

  ghost function TakeStep(cfg: Config, s: World, e: Step): World
    requires CanStep(cfg, s, e) && BatchInRange(s.book)
  {
    var t := s.(
      book := BookAfter(cfg, s, e),
      workers := if OfWorker(e) then s.workers[e.w := WorkerAfter(cfg, s, e)] else s.workers,
      completed := s.completed + if Attaches(s, e) then 1 else 0,
      orphans := s.orphans + if e.Reject? || (e.AttachIt? && !Attaches(s, e)) then 1 else 0);
    match e
    case Upload(name, issue, stored) =>
      t.(issued := s.issued[name := issue], unrecorded := s.unrecorded + {name},
         files := if stored.Some? then s.files[Server.Path(issue.user, "inbox", name) := stored.value] else s.files)
    case Record(name, _) =>
      t.(unrecorded := s.unrecorded - {name},
         watched := if s.issued[name].ok then s.watched + {name} else s.watched)
    case Promote(path, tid, now) => t.(files := Server.PromoteOne(s.files, cfg.routes, path, tid, now))
    case Detect(name, tid, delivered) =>
      t.(watched := s.watched - {name},
         results := if delivered then s.results + [TrackResult(name, tid, false)] else s.results)
    case Expire(name, delivered) =>
      t.(watched := s.watched - {name},
         results := if delivered then s.results + [TrackResult(name, "", true)] else s.results)
    case Consume(_) => t.(results := s.results[1..])
    case Fetch(w, _, evict) =>
      t.(files := if evict then Server.Evict(s.files, cfg.routes, s.workers[w].user, s.workers[w].job.name) else s.files)
    case Foreign(path, file) => t.(files := s.files[path := file])
    case _ => t
  }

  /** A run starts with a blank ledger and any files already on the server. */
  predicate Init(s: World) {
    && s.book == BLANK && s.issued == map[] && s.unrecorded == {} && s.watched == {} && s.results == []
    && s.completed == 0 && s.orphans == 0
    && forall i :: 0 <= i < |s.workers| ==> s.workers[i].seen == {} && s.workers[i].job.Idle?
  }
}
