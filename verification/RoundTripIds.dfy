/** Where the track ids of a run come from: whatever a record or a row carries is what the server called that very
    upload when it promoted it. */
module RoundTripIds {
  import opened Collections
  import opened TrackedNames
  import opened Ledger
  import opened LedgerRuns
  import opened LedgerIndices
  import opened RoundTrip
  import opened RoundTripSafety
  import Server = MockServer

  /** A name and the id it was promoted under. */
  datatype Drawn = Drawn(name: string, id: string)

  function DrawnBy(steps: seq<Step>, n: nat): set<Drawn>
    requires n <= |steps|
  {
    if n == 0 then {}
    else DrawnBy(steps, n - 1) + if steps[n - 1].Promote? then {Drawn(steps[n - 1].path.name, steps[n - 1].tid)} else {}
  }

  ghost predicate FilesDrawn(s: World, drawn: set<Drawn>) {
    forall p :: p in s.files && IsRouted(p.name) && Base(p.name) in s.issued ==>
                  Drawn(Base(p.name), p.name[Hash(p.name) + 1..]) in drawn
  }

  ghost predicate ResultsDrawn(results: seq<TrackResult>, drawn: set<Drawn>) {
    forall i :: 0 <= i < |results| && !results[i].timedOut ==> Drawn(results[i].name, results[i].trackID) in drawn
  }

  predicate IdDrawn(r: FileRecord, drawn: set<Drawn>) {
    r.trackID == "" || r.trackID == "TRACKID_TIMEOUT" || Drawn(r.filename, r.trackID) in drawn
  }

  ghost predicate LiveDrawn(records: seq<Option<FileRecord>>, drawn: set<Drawn>) {
    forall i :: 0 <= i < |records| && records[i].Some? ==> IdDrawn(records[i].value, drawn)
  }

  ghost predicate RowsDrawn(rows: seq<Row>, drawn: set<Drawn>) {
    forall i :: 0 <= i < |rows| ==> IdDrawn(rows[i].record, drawn)
  }

  ghost predicate BookDrawn(b: Book, drawn: set<Drawn>) {
    LiveDrawn(b.l.records, drawn) && RowsDrawn(b.disk, drawn) && RowsDrawn(Held(b), drawn)
  }

  ghost predicate AllDrawn(s: World, drawn: set<Drawn>) {
    FilesDrawn(s, drawn) && ResultsDrawn(s.results, drawn) && BookDrawn(s.book, drawn)
  }

  lemma TrackedParts(name: string, tid: string)
    requires '#' !in name && name != ""
    ensures var t := Server.Tracked(name, tid);
            IsRouted(t) && Base(t) == name && t[Hash(t) + 1..] == tid
  {
    var t := Server.Tracked(name, tid);
    assert t[..|name|] == name;
    HashMeaning(t, |name|);
  }

  function DrawnAfter(drawn: set<Drawn>, e: Step): set<Drawn> {
    drawn + if e.Promote? then {Drawn(e.path.name, e.tid)} else {}
  }

  lemma PromotedDrawn(cfg: Config, s: World, e: Step, drawn: set<Drawn>)
    requires e.Promote? && CanStep(cfg, s, e) && BatchInRange(s.book) && FilesDrawn(s, drawn)
    ensures FilesDrawn(TakeStep(cfg, s, e), DrawnAfter(drawn, e))
  {
    TrackedParts(e.path.name, e.tid);
    hide BookAfter, WorkerAfter, Attaches, Base, IsRouted;
  }

  lemma FilesStep(cfg: Config, s: World, e: Step, drawn: set<Drawn>)
    requires Inv(cfg, s) && CanStep(cfg, s, e) && BatchInRange(s.book) && FilesDrawn(s, drawn)
    ensures FilesDrawn(TakeStep(cfg, s, e), DrawnAfter(drawn, e))
  {
    hide BookOk, BookAfter, TracksOk, JobsOk, Counted, WorkerAfter, Attaches;
    if e.Promote? {
      PromotedDrawn(cfg, s, e, drawn);
    } else if e.Upload? {
      BaseOfPlain(e.name);
      assert IsNewName(s, e.name, e.issue.user);
    } else if e.Foreign? {
      hide NamesOk;
    } else {
      hide Base, IsRouted;
    }
  }

  lemma ResultsStep(cfg: Config, s: World, e: Step, drawn: set<Drawn>)
    requires Inv(cfg, s) && CanStep(cfg, s, e) && BatchInRange(s.book)
    requires FilesDrawn(s, drawn) && ResultsDrawn(s.results, drawn)
    ensures ResultsDrawn(TakeStep(cfg, s, e).results, DrawnAfter(drawn, e))
  {
    hide BookOk, BookAfter, TracksOk, JobsOk, FilesFaithful, Base, WorkerAfter, Attaches, Counted;
    if e.Detect? {
      TrackedParts(e.name, e.tid);
    }
  }

  lemma TrackStep(cfg: Config, s: World, t: TrackResult, at: int, drawn: set<Drawn>)
    requires Inv(cfg, s) && TrackOk(s.issued, t) && BookDrawn(s.book, drawn)
    requires !t.timedOut ==> Drawn(t.name, t.trackID) in drawn
    ensures LiveDrawn(Tracked(s.book.l, s.issued[t.name].user, t.name, t.trackID, at, t.timedOut).records, drawn)
  {
    TrackTarget(cfg, s, t.name);
    hide Indexed, RowsOk, Inv;
  }

  lemma CollectStep(l: Ledger, grace: int, now: int, drawn: set<Drawn>)
    requires LiveDrawn(l.records, drawn)
    ensures LiveDrawn(Collected(l, IsRecordFinal(true, grace, now)).records, drawn)
    ensures RowsDrawn(CollectedBatch(l, IsRecordFinal(true, grace, now)), drawn)
  {
    var isFinal := IsRecordFinal(true, grace, now);
    var batch := CollectedBatch(l, isFinal);
    BatchMeaning(l.records, |l.records|, isFinal);
    forall i | 0 <= i < |batch| ensures IdDrawn(batch[i].record, drawn) {
      assert FromSlot(l.records, isFinal, batch[i]);
    }
  }

  lemma ReleaseStep(b: Book, drawn: set<Drawn>)
    requires Conserved(b) && b.phase.Written? && BatchInRange(b) && BookDrawn(b, drawn)
    ensures BookDrawn(LedgerRuns.Apply(b, Release), drawn)
  {
    hide IdDrawn;
    ReleaseEmpties(b);
    hide CommitSlots, Conserved, HasSlot;
  }

  lemma BookStep(cfg: Config, s: World, e: Step, drawn: set<Drawn>)
    requires Inv(cfg, s) && CanStep(cfg, s, e) && BatchInRange(s.book)
    requires ResultsDrawn(s.results, drawn) && BookDrawn(s.book, drawn)
    ensures BookDrawn(BookAfter(cfg, s, e), drawn)
  {
    if e.Consume? {
      TrackStep(cfg, s, s.results[0], e.at, drawn);
      hide Inv, IdDrawn, FilesFaithful, Tracked;
    } else if e.CollectFinal? {
      hide Inv, IdDrawn, IsRecordFinal, CollectedBatch, Collected;
      CollectStep(s.book.l, cfg.grace, e.now, drawn);
    } else if e.ReleaseBatch? {
      assert Conserved(s.book);
      hide Inv, BookDrawn, Conserved, LedgerRuns.Apply, BatchInRange;
      ReleaseStep(s.book, drawn);
    } else {
      hide Inv, BookDrawn, BookAfter, BatchInRange;
      OtherBookStep(cfg, s, e, drawn);
    }
  }

  lemma OtherBookStep(cfg: Config, s: World, e: Step, drawn: set<Drawn>)
    requires CanStep(cfg, s, e) && BatchInRange(s.book) && BookDrawn(s.book, drawn)
    requires !e.Consume? && !e.CollectFinal? && !e.ReleaseBatch?
    ensures BookDrawn(BookAfter(cfg, s, e), drawn)
  {
    hide Find, Base;
  }

  lemma DrawnMore(s: World, drawn: set<Drawn>, more: set<Drawn>)
    requires BookDrawn(s.book, drawn) && drawn <= more
    ensures BookDrawn(s.book, more)
  {
  }

  lemma StepDraws(cfg: Config, s: World, e: Step, drawn: set<Drawn>)
    requires Inv(cfg, s) && CanStep(cfg, s, e) && BatchInRange(s.book) && AllDrawn(s, drawn)
    ensures AllDrawn(TakeStep(cfg, s, e), DrawnAfter(drawn, e))
  {
    FilesStep(cfg, s, e, drawn);
    ResultsStep(cfg, s, e, drawn);
    BookStep(cfg, s, e, drawn);
    hide BookDrawn, BookAfter, CanStep, FilesDrawn, ResultsDrawn, Inv;
    DrawnMore(TakeStep(cfg, s, e), drawn, DrawnAfter(drawn, e));
  }

  /** In every reachable state, whatever track id a record in memory or a row carries, other than none or the word for
      a timeout, the server drew it when it promoted the upload of that name. */
  lemma {:induction false} TrackIdsAreTheServers(cfg: Config, run: seq<World>, steps: seq<Step>, n: nat)
    requires RoundTripSafety.IsRun(cfg, run, steps) && n < |run|
    ensures AllDrawn(run[n], DrawnBy(steps, n))
  {
    hide Inv, TakeStep, CanStep;
    if n > 0 {
      hide AllDrawn;
      TrackIdsAreTheServers(cfg, run, steps, n - 1);
      RunInv(cfg, run, steps, n - 1);
      assert StepsTo(cfg, run[n - 1], steps[n - 1], run[n]);
      StepDraws(cfg, run[n - 1], steps[n - 1], DrawnBy(steps, n - 1));
    }
  }
}
