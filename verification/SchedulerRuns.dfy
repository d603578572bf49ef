/** Whole runs of the scheduler. A sweep lists, looks for an active run, starts and settles in four steps;
    the handlers that create, cancel and start by hand may land between any two of them. */
module SchedulerRuns {

  import opened Collections
  import opened Scheduler

  /** Where the sweep stands: nothing under way; a listing read at `now`; no active run seen, about to start
      `e`; `e` started and not yet settled. */
  datatype Sweep =
    | Idle
    | Listed(view: seq<Entry>, now: int)
    | Passed(e: Entry, now: int)
    | Started(e: Entry, now: int)

  /** `used` is every id handed out; `active` are the runs under way and `runs` how many were ever started,
      which numbers them. */
  datatype State = State(entries: map<string, Schedule>, sweep: Sweep, used: set<string>,
                         active: set<nat>, runs: nat, fired: seq<Firing>)

  datatype Step =
    | Create(entry: Entry)
    | Cancel(raw: string)
    | List(view: seq<Entry>, now: int)
    | Check(stuck: set<string>)
    | Start(ok: bool, stuck: set<string>)
    | Settle(saves: bool, stuck: set<string>)
    | StartByHand
    | RunEnds(run: nat)

  const INITIAL := State(map[], Idle, {}, {}, 0, [])

  ghost predicate CanStep(s: State, step: Step) {
    match step
    case Create(entry) => Clean(entry.id) && entry.id !in s.used
    case Cancel(_) => true
    case List(view, _) => s.sweep.Idle? && IsListing(view, s.entries)
    case Check(_) => s.sweep.Listed?
    case Start(_, _) => s.sweep.Passed?
    case Settle(_, _) => s.sweep.Started?
    case StartByHand => true
    case RunEnds(run) => run in s.active
  }

  function TakeStep(s: State, startedAt: int, step: Step): State {
    match step
    case Create(entry) => s.(entries := s.entries[entry.id := entry.schedule], used := s.used + {entry.id})
    case Cancel(raw) => s.(entries := Removed(s.entries, raw, {}))
    case List(view, now) => s.(sweep := Listed(view, now))
    case Check(stuck) =>
      if !s.sweep.Listed? then s
      else
        var f := Scanned(s.entries, startedAt, s.sweep.view, s.sweep.now, stuck);
        s.(entries := f.entries,
           sweep := if f.due.None? || s.active != {} then Idle else Passed(f.due.value, s.sweep.now))
    case Start(ok, stuck) =>
      if !s.sweep.Passed? then s
      else if !ok then s.(entries := Removed(s.entries, s.sweep.e.id, stuck), sweep := Idle)
      else
        s.(active := s.active + {s.runs}, runs := s.runs + 1, sweep := Started(s.sweep.e, s.sweep.now),
           fired := s.fired + [Firing(s.sweep.e.id, s.sweep.e.schedule.runAt, s.sweep.now)])
    case Settle(saves, stuck) =>
      if !s.sweep.Started? then s
      else s.(entries := Settled(s.entries, s.sweep.e, Round(s.sweep.now, false, true, saves, stuck)), sweep := Idle)
    case StartByHand => s.(active := s.active + {s.runs}, runs := s.runs + 1)
    case RunEnds(run) => s.(active := s.active - {run})
  }

  function Run(startedAt: int, steps: seq<Step>): State {
    if steps == [] then INITIAL else TakeStep(Run(startedAt, steps[..|steps| - 1]), startedAt, steps[|steps| - 1])
  }

  /** Every step is possible where it is taken. */
  ghost predicate Possible(startedAt: int, steps: seq<Step>) {
    steps != [] ==>
      && Possible(startedAt, steps[..|steps| - 1])
      && CanStep(Run(startedAt, steps[..|steps| - 1]), steps[|steps| - 1])
  }

  /** With no other party in between, the stages do what one sweep does. */
  lemma UninterruptedSweep(s: State, startedAt: int, starts: bool, saves: bool, stuck: set<string>)
    requires s.sweep.Listed?
    ensures var out := Swept(s.entries, startedAt, s.sweep.view, Round(s.sweep.now, s.active != {}, starts, saves, stuck));
            var t := TakeStep(s, startedAt, Check(stuck));
            var u := TakeStep(t, startedAt, Start(starts, stuck));
            var v := TakeStep(u, startedAt, Settle(saves, stuck));
            && v.sweep == Idle && v.entries == out.entries
            && v.fired == s.fired + if out.fired.None? then [] else [out.fired.value]
  {
    hide Scanned, Swept, Settled, Removed;
    var round := Round(s.sweep.now, s.active != {}, starts, saves, stuck);
    SweptInStages(s.entries, startedAt, s.sweep.view, round);
    var f := Scanned(s.entries, startedAt, s.sweep.view, s.sweep.now, stuck);
    if f.due.Some? {
      SettledSame(f.entries, f.due.value, round, round.(active := false, starts := true));
    }
  }

  lemma SettledSame(entries: map<string, Schedule>, e: Entry, r: Round, q: Round)
    requires r.now == q.now && r.saves == q.saves && r.stuck == q.stuck
    ensures Settled(entries, e, r) == Settled(entries, e, q)
  {
  }

  // ---------------------------------------------------------------- at most once

  /** The fired schedule's file is removed, or saved over with a later time. */
  predicate Leaves(s: State, step: Step) {
    step.Settle? && s.sweep.Started? ==>
      s.sweep.e.id !in step.stuck || (s.sweep.e.schedule.every > 0 && step.saves)
  }

  ghost predicate Proper(startedAt: int, steps: seq<Step>) {
    steps != [] ==>
      && Proper(startedAt, steps[..|steps| - 1])
      && CanStep(Run(startedAt, steps[..|steps| - 1]), steps[|steps| - 1])
      && Leaves(Run(startedAt, steps[..|steps| - 1]), steps[|steps| - 1])
  }

  ghost predicate StoredKnown(s: State) {
    && (forall id :: id in s.entries ==> id in s.used && Clean(id))
    && (forall k :: 0 <= k < |s.fired| ==> s.fired[k].id in s.used)
  }

  ghost predicate EntryKnown(s: State, e: Entry) {
    Clean(e.id) && e.id in s.used
  }

  ghost predicate SweepKnown(s: State, startedAt: int) {
    match s.sweep
    case Idle => true
    case Listed(view, _) => Sorted(view) && forall i :: 0 <= i < |view| ==> EntryKnown(s, view[i])
    case Passed(e, now) => EntryKnown(s, e) && Due(e.schedule, startedAt, now)
    case Started(e, now) => EntryKnown(s, e) && Due(e.schedule, startedAt, now)
  }

  /** Due after everything that fired under its id. */
  ghost predicate After(fired: seq<Firing>, id: string, runAt: int) {
    forall k :: 0 <= k < |fired| && fired[k].id == id ==> runAt > fired[k].at
  }

  /** The entry a sweep has started and not yet settled still shows the occurrence that fired. */
  predicate Unsettled(s: State, id: string) {
    s.sweep.Started? && s.sweep.e.id == id
  }

  ghost predicate StoredIsLater(s: State) {
    forall id :: id in s.entries && !Unsettled(s, id) ==> After(s.fired, id, s.entries[id].runAt)
  }

  ghost predicate SweepIsLater(s: State) {
    match s.sweep
    case Idle => true
    case Listed(view, _) => forall i :: 0 <= i < |view| ==> After(s.fired, view[i].id, view[i].schedule.runAt)
    case Passed(e, _) => After(s.fired, e.id, e.schedule.runAt)
    case Started(e, now) => forall k :: 0 <= k < |s.fired| && s.fired[k].id == e.id ==> s.fired[k].at <= now
  }

  /** Firings of one schedule: each due strictly after the one before it had started. */
  ghost predicate Separate(fired: seq<Firing>) {
    forall j, k :: 0 <= j < k < |fired| && fired[j].id == fired[k].id ==> fired[k].due > fired[j].at
  }

  ghost predicate OnTime(fired: seq<Firing>, startedAt: int) {
    forall k :: 0 <= k < |fired| ==> startedAt <= fired[k].due <= fired[k].at
  }

  ghost predicate Inv(s: State, startedAt: int) {
    && StoredKnown(s) && SweepKnown(s, startedAt) && StoredIsLater(s) && SweepIsLater(s)
    && Separate(s.fired) && OnTime(s.fired, startedAt)
  }

  lemma ListKeeps(s: State, startedAt: int, view: seq<Entry>, now: int)
    requires Inv(s, startedAt) && CanStep(s, List(view, now))
    ensures Inv(TakeStep(s, startedAt, List(view, now)), startedAt)
  {
    hide After;
  }

  lemma CheckKeeps(s: State, startedAt: int, stuck: set<string>)
    requires Inv(s, startedAt) && CanStep(s, Check(stuck))
    ensures Inv(TakeStep(s, startedAt, Check(stuck)), startedAt)
  {
    hide After, Scanned, Due, Sorted;
    ScanFinds(s.entries, startedAt, s.sweep.view, s.sweep.now, stuck);
  }

  lemma StartKeeps(s: State, startedAt: int, ok: bool, stuck: set<string>)
    requires Inv(s, startedAt) && CanStep(s, Start(ok, stuck))
    ensures Inv(TakeStep(s, startedAt, Start(ok, stuck)), startedAt)
  {
    var t := TakeStep(s, startedAt, Start(ok, stuck));
    if ok {
      var f := Firing(s.sweep.e.id, s.sweep.e.schedule.runAt, s.sweep.now);
      assert t.fired == s.fired + [f];
      OneMoreFiring(s.fired, f);
    }
  }

  lemma OneMoreFiring(fired: seq<Firing>, f: Firing)
    ensures forall id, runAt :: id != f.id && After(fired, id, runAt) ==> After(fired + [f], id, runAt)
    ensures Separate(fired) && After(fired, f.id, f.due) ==> Separate(fired + [f])
  {
    var more := fired + [f];
    forall j, k | Separate(fired) && After(fired, f.id, f.due) && 0 <= j < k < |more| && more[j].id == more[k].id
      ensures more[k].due > more[j].at
    {
      if k == |fired| {
        assert more[j] == fired[j];
      }
    }
  }

  lemma SettleKeeps(s: State, startedAt: int, saves: bool, stuck: set<string>)
    requires Inv(s, startedAt) && CanStep(s, Settle(saves, stuck)) && Leaves(s, Settle(saves, stuck))
    ensures Inv(TakeStep(s, startedAt, Settle(saves, stuck)), startedAt)
  {
    hide Settled, Due;
    var e, now := s.sweep.e, s.sweep.now;
    SettledMovesOn(s.entries, e, Round(now, false, true, saves, stuck));
    var t := TakeStep(s, startedAt, Settle(saves, stuck));
    forall id | id in t.entries ensures After(t.fired, id, t.entries[id].runAt) {
      if id != e.id {
        assert After(s.fired, id, s.entries[id].runAt);
      }
    }
  }

  lemma StepKeeps(s: State, startedAt: int, step: Step)
    requires Inv(s, startedAt) && CanStep(s, step) && Leaves(s, step)
    ensures Inv(TakeStep(s, startedAt, step), startedAt)
  {
    match step
    case List(view, now) => ListKeeps(s, startedAt, view, now);
    case Check(stuck) => CheckKeeps(s, startedAt, stuck);
    case Start(ok, stuck) => StartKeeps(s, startedAt, ok, stuck);
    case Settle(saves, stuck) => SettleKeeps(s, startedAt, saves, stuck);
    case Create(entry) => CreateKeeps(s, startedAt, entry);
    case _ => OthersKeep(s, startedAt, step);
  }

  lemma CreateKeeps(s: State, startedAt: int, entry: Entry)
    requires Inv(s, startedAt) && CanStep(s, Create(entry))
    ensures Inv(TakeStep(s, startedAt, Create(entry)), startedAt)
  {
    assert After(s.fired, entry.id, entry.schedule.runAt);
  }

  lemma OthersKeep(s: State, startedAt: int, step: Step)
    requires Inv(s, startedAt) && CanStep(s, step) && (step.Cancel? || step.StartByHand? || step.RunEnds?)
    ensures Inv(TakeStep(s, startedAt, step), startedAt)
  {
    hide After;
  }

  lemma {:induction false} RunKeeps(startedAt: int, steps: seq<Step>)
    requires Proper(startedAt, steps)
    ensures Inv(Run(startedAt, steps), startedAt)
  {
    if steps != [] {
      hide TakeStep, CanStep, Leaves;
      RunKeeps(startedAt, steps[..|steps| - 1]);
      StepKeeps(Run(startedAt, steps[..|steps| - 1]), startedAt, steps[|steps| - 1]);
    }
  }

  /** Over every run, no occurrence (an id with a due time) fires twice, none fires early or from
      before startup, and a repeat is due only after the sweep that fired the one before began. */
  lemma EachOccurrenceFiresAtMostOnce(startedAt: int, steps: seq<Step>)
    requires Proper(startedAt, steps)
    ensures Separate(Run(startedAt, steps).fired) && OnTime(Run(startedAt, steps).fired, startedAt)
    ensures forall j, k :: 0 <= j < k < |Run(startedAt, steps).fired| ==>
                             (Run(startedAt, steps).fired[j].id, Run(startedAt, steps).fired[j].due)
                             != (Run(startedAt, steps).fired[k].id, Run(startedAt, steps).fired[k].due)
  {
    hide TakeStep;
    RunKeeps(startedAt, steps);
  }

  lemma RunMore(startedAt: int, steps: seq<Step>, step: Step)
    ensures Run(startedAt, steps + [step]) == TakeStep(Run(startedAt, steps), startedAt, step)
  {
    assert (steps + [step])[..|steps|] == steps;
  }

  /** A one-shot schedule whose file cannot be removed fires at every idle sweep. */
  lemma StuckFileFiresAgain()
    ensures exists steps: seq<Step> ::
              && |Run(0, steps).fired| == 2
              && Run(0, steps).fired[0].id == Run(0, steps).fired[1].id
              && Run(0, steps).fired[0].due == Run(0, steps).fired[1].due
              && !Proper(0, steps)
  {
    var e := Entry("s", Schedule(5, 0));
    var stored := map[e.id := e.schedule];
    assert SanitizeID(e.id) == e.id;
    var s2, s4 := [Create(e), List([e], 7)], [Check({}), Start(true, {})];
    var once := s2 + s4 + [Settle(true, {e.id}), RunEnds(0)];
    var steps := once + [List([e], 8)] + s4;
    FiresOnce(e, stored);
    RunMore(0, once, List([e], 8));
    RunMore(0, once + [List([e], 8)], Check({}));
    RunMore(0, once + [List([e], 8)] + [Check({})], Start(true, {}));
    assert steps == once + [List([e], 8)] + [Check({})] + [Start(true, {})];
    assert Run(0, steps).fired == [Firing(e.id, 5, 7), Firing(e.id, 5, 8)];
    if Proper(0, steps) {
      EachOccurrenceFiresAtMostOnce(0, steps);
    }
  }

  ghost predicate OneShot(e: Entry, stored: map<string, Schedule>) {
    e == Entry("s", Schedule(5, 0)) && stored == map[e.id := e.schedule] && SanitizeID(e.id) == e.id
  }

  /** The states of a store that holds one schedule due at 5, whose file is stuck. */
  function Stored(e: Entry, stored: map<string, Schedule>): State {
    State(stored, Idle, {e.id}, {}, 0, [])
  }

  lemma Stages(e: Entry, stored: map<string, Schedule>)
    requires OneShot(e, stored)
    ensures TakeStep(INITIAL, 0, Create(e)) == Stored(e, stored)
    ensures TakeStep(Stored(e, stored), 0, List([e], 7)) == Stored(e, stored).(sweep := Listed([e], 7))
    ensures TakeStep(Stored(e, stored).(sweep := Listed([e], 7)), 0, Check({})) == Stored(e, stored).(sweep := Passed(e, 7))
  {
    hide SanitizeID;
    assert Scanned(stored, 0, [e], 7, {}) == Found(stored, Some(e));
  }

  lemma LaterStages(e: Entry, stored: map<string, Schedule>)
    requires OneShot(e, stored)
    ensures var started := State(stored, Started(e, 7), {e.id}, {0}, 1, [Firing(e.id, 5, 7)]);
            && TakeStep(Stored(e, stored).(sweep := Passed(e, 7)), 0, Start(true, {})) == started
            && TakeStep(started, 0, Settle(true, {e.id})) == started.(sweep := Idle)
            && TakeStep(started.(sweep := Idle), 0, RunEnds(0)) == started.(sweep := Idle, active := {})
  {
    hide SanitizeID;
  }

  lemma FiresOnce(e: Entry, stored: map<string, Schedule>)
    requires OneShot(e, stored)
    ensures Run(0, [Create(e), List([e], 7)] + [Check({}), Start(true, {})] + [Settle(true, {e.id}), RunEnds(0)])
            == State(stored, Idle, {e.id}, {}, 1, [Firing(e.id, 5, 7)])
  {
    assert Run(0, []) == INITIAL;
    Stages(e, stored);
    LaterStages(e, stored);
    hide Run, TakeStep, OneShot;
    var a := [Create(e)];
    var b := a + [List([e], 7)];
    var c := b + [Check({})];
    var d := c + [Start(true, {})];
    var f := d + [Settle(true, {e.id})];
    RunMore(0, [], Create(e));
    assert [] + [Create(e)] == a;
    RunMore(0, a, List([e], 7));
    RunMore(0, b, Check({}));
    RunMore(0, c, Start(true, {}));
    RunMore(0, d, Settle(true, {e.id}));
    RunMore(0, f, RunEnds(0));
    assert [Create(e), List([e], 7)] + [Check({}), Start(true, {})] + [Settle(true, {e.id}), RunEnds(0)] == f + [RunEnds(0)];
  }

  // ---------------------------------------------------------------- beside an active run

  lemma {:induction false} PossiblePrefix(startedAt: int, steps: seq<Step>, n: nat)
    requires Possible(startedAt, steps) && n <= |steps|
    ensures Possible(startedAt, steps[..n])
    ensures n < |steps| ==> CanStep(Run(startedAt, steps[..n]), steps[n])
                            && Run(startedAt, steps[..n + 1]) == TakeStep(Run(startedAt, steps[..n]), startedAt, steps[n])
  {
    hide CanStep, TakeStep;
    if n == |steps| {
      assert steps[..n] == steps;
    } else {
      var init := steps[..|steps| - 1];
      assert steps[..n] == init[..n];
      if n < |init| {
        assert steps[..n + 1] == init[..n + 1];
        PossiblePrefix(startedAt, init, n);
      } else {
        assert init[..n] == init && steps[..n + 1] == steps;
      }
    }
  }

  /** The step at `c` is the look for an active run that let the sweep go on to the start at `n`. */
  ghost predicate CheckFor(startedAt: int, steps: seq<Step>, c: int, n: int) {
    && 0 <= c < n <= |steps| && steps[c].Check? && Run(startedAt, steps[..c + 1]).sweep.Passed?
    && forall j :: c < j < n ==> !steps[j].Start?
  }

  ghost predicate ByHandAt(startedAt: int, steps: seq<Step>, j: int, run: nat) {
    0 <= j < |steps| && steps[j].StartByHand? && Run(startedAt, steps[..j]).runs == run
  }

  /** The run was started by hand after step `c` and before step `n`. */
  ghost predicate ByHandBetween(startedAt: int, steps: seq<Step>, c: int, n: int, run: nat) {
    exists j :: c < j < n && ByHandAt(startedAt, steps, j, run)
  }

  /** Since the look, only runs started by hand have become active. */
  lemma {:induction false} SinceTheCheck(startedAt: int, steps: seq<Step>, c: nat, i: nat)
    requires Possible(startedAt, steps) && CheckFor(startedAt, steps, c, i)
    ensures Run(startedAt, steps[..i]).sweep == Run(startedAt, steps[..c + 1]).sweep
    ensures forall run :: run in Run(startedAt, steps[..i]).active ==> ByHandBetween(startedAt, steps, c, i, run)
    decreases i
  {
    hide TakeStep, CanStep;
    PossiblePrefix(startedAt, steps, i - 1);
    var before, now := Run(startedAt, steps[..i - 1]), Run(startedAt, steps[..i]);
    if i == c + 1 {
      CheckSawNone(before, startedAt, steps[c]);
    } else {
      SinceTheCheck(startedAt, steps, c, i - 1);
      StillPassed(before, startedAt, steps[i - 1]);
      forall run | run in now.active ensures ByHandBetween(startedAt, steps, c, i, run) {
        if run in before.active {
          assert ByHandBetween(startedAt, steps, c, i - 1, run);
        } else {
          assert ByHandAt(startedAt, steps, i - 1, run);
        }
      }
    }
  }

  lemma CheckSawNone(s: State, startedAt: int, step: Step)
    requires CanStep(s, step) && step.Check? && TakeStep(s, startedAt, step).sweep.Passed?
    ensures TakeStep(s, startedAt, step).active == {}
  {
    hide Scanned;
  }

  /** Until it starts, a sweep that has looked is where it was, and only a manual start adds a run. */
  lemma StillPassed(s: State, startedAt: int, step: Step)
    requires CanStep(s, step) && s.sweep.Passed? && !step.Start?
    ensures TakeStep(s, startedAt, step).sweep == s.sweep
    ensures forall run :: run in TakeStep(s, startedAt, step).active ==>
                            run in s.active || (step.StartByHand? && run == s.runs)
  {
    hide Scanned, Settled, Removed;
  }

  lemma {:induction false} PassedWasChecked(startedAt: int, steps: seq<Step>, n: nat)
    requires Possible(startedAt, steps) && n <= |steps| && Run(startedAt, steps[..n]).sweep.Passed?
    ensures exists c :: CheckFor(startedAt, steps, c, n)
    decreases n
  {
    hide TakeStep, CanStep;
    assert Run(startedAt, steps[..0]) == INITIAL;
    if n > 0 {
      PossiblePrefix(startedAt, steps, n - 1);
      PassedBy(Run(startedAt, steps[..n - 1]), startedAt, steps[n - 1]);
      if steps[n - 1].Check? {
        assert CheckFor(startedAt, steps, n - 1, n);
      } else {
        PassedWasChecked(startedAt, steps, n - 1);
        var c :| CheckFor(startedAt, steps, c, n - 1);
        assert CheckFor(startedAt, steps, c, n);
      }
    }
  }

  lemma PassedBy(s: State, startedAt: int, step: Step)
    requires CanStep(s, step) && TakeStep(s, startedAt, step).sweep.Passed?
    ensures step.Check? || (s.sweep.Passed? && !step.Start?)
  {
    hide Scanned, Settled, Removed;
  }

  /** A sweep that starts a run looked for an active one before. It starts beside an active run if and only
      if one was started by hand since that look and has not ended: the look and the start are two steps,
      and nothing keeps a manual start out from between them. */
  lemma StartsBesideActiveIff(startedAt: int, steps: seq<Step>, n: nat)
    requires Possible(startedAt, steps) && n < |steps| && steps[n].Start?
    ensures exists c :: CheckFor(startedAt, steps, c, n)
    ensures forall c :: CheckFor(startedAt, steps, c, n) ==>
              (Run(startedAt, steps[..n]).active != {}
               <==> exists run :: run in Run(startedAt, steps[..n]).active && ByHandBetween(startedAt, steps, c, n, run))
  {
    hide ByHandBetween, TakeStep;
    PossiblePrefix(startedAt, steps, n);
    PassedWasChecked(startedAt, steps, n);
    forall c | CheckFor(startedAt, steps, c, n)
      ensures Run(startedAt, steps[..n]).active != {}
              <==> exists run :: run in Run(startedAt, steps[..n]).active && ByHandBetween(startedAt, steps, c, n, run)
    {
      SinceTheCheck(startedAt, steps, c, n);
    }
  }

  /** Without a manual start in that window the scheduled run is the only one. */
  lemma NeverBesideAnActiveRun(startedAt: int, steps: seq<Step>, c: nat, n: nat)
    requires Possible(startedAt, steps) && n < |steps| && CheckFor(startedAt, steps, c, n)
    requires steps[n].Start? && steps[n].ok && forall j :: c < j < n ==> !steps[j].StartByHand?
    ensures Run(startedAt, steps[..n]).active == {} && |Run(startedAt, steps[..n + 1]).active| == 1
  {
    hide Scanned, Settled, Removed;
    SinceTheCheck(startedAt, steps, c, n);
    PossiblePrefix(startedAt, steps, n);
    assert forall run: nat :: !ByHandBetween(startedAt, steps, c, n, run);
    var s := Run(startedAt, steps[..n]);
    assert TakeStep(s, startedAt, steps[n]).active == {s.runs};
  }

  /** With one, two runs are active at once. */
  lemma ManualStartSlipsIn()
    ensures var steps := [Create(Entry("s", Schedule(5, 0))), List([Entry("s", Schedule(5, 0))], 7), Check({}), StartByHand, Start(true, {})];
            Possible(0, steps) && Run(0, steps).active == {0, 1} && |Run(0, steps).fired| == 1
  {
    var e := Entry("s", Schedule(5, 0));
    var stored := map[e.id := e.schedule];
    var a := [Create(e)];
    var b := a + [List([e], 7)];
    var c := b + [Check({})];
    var d := c + [StartByHand];
    var steps := d + [Start(true, {})];
    LoneListing(e, stored);
    SlipStates(e, stored);
    assert steps == [Create(e), List([e], 7), Check({}), StartByHand, Start(true, {})];
    assert a[..0] == [] && b[..1] == a && c[..2] == b && d[..3] == c && steps[..4] == d;
    assert Possible(0, a) && Possible(0, b) && Possible(0, c) && Possible(0, d);
    RunMore(0, d, Start(true, {}));
  }

  lemma LoneListing(e: Entry, stored: map<string, Schedule>)
    requires e == Entry("s", Schedule(5, 0)) && stored == map[e.id := e.schedule]
    ensures Clean(e.id) && IsListing([e], stored) && Scanned(stored, 0, [e], 7, {}) == Found(stored, Some(e))
  {
    assert SanitizeID(e.id) == e.id;
    assert Lists([e], e.id) by {
      assert [e][0].id == e.id;
    }
  }

  lemma SlipStates(e: Entry, stored: map<string, Schedule>)
    requires e == Entry("s", Schedule(5, 0)) && stored == map[e.id := e.schedule]
    ensures Run(0, []) == INITIAL
    ensures Run(0, [Create(e)]) == State(stored, Idle, {e.id}, {}, 0, [])
    ensures Run(0, [Create(e)] + [List([e], 7)]) == State(stored, Listed([e], 7), {e.id}, {}, 0, [])
    ensures Run(0, [Create(e)] + [List([e], 7)] + [Check({})]) == State(stored, Passed(e, 7), {e.id}, {}, 0, [])
    ensures Run(0, [Create(e)] + [List([e], 7)] + [Check({})] + [StartByHand])
            == State(stored, Passed(e, 7), {e.id}, {0}, 1, [])
  {
    LoneListing(e, stored);
    RunMore(0, [], Create(e));
    assert [] + [Create(e)] == [Create(e)];
    RunMore(0, [Create(e)], List([e], 7));
    RunMore(0, [Create(e)] + [List([e], 7)], Check({}));
    RunMore(0, [Create(e)] + [List([e], 7)] + [Check({})], StartByHand);
  }

  // ---------------------------------------------------------------- cancelling

  function RanFrom(s: State, startedAt: int, steps: seq<Step>): State
    decreases |steps|
  {
    if steps == [] then s else RanFrom(TakeStep(s, startedAt, steps[0]), startedAt, steps[1..])
  }

  ghost predicate Allowed(s: State, startedAt: int, steps: seq<Step>)
    decreases |steps|
  {
    steps != [] ==> CanStep(s, steps[0]) && Allowed(TakeStep(s, startedAt, steps[0]), startedAt, steps[1..])
  }

  lemma {:induction false} InTwo(s: State, startedAt: int, a: seq<Step>, b: seq<Step>)
    ensures RanFrom(s, startedAt, a + b) == RanFrom(RanFrom(s, startedAt, a), startedAt, b)
    ensures Allowed(s, startedAt, a + b) <==> Allowed(s, startedAt, a) && Allowed(RanFrom(s, startedAt, a), startedAt, b)
    decreases |a|
  {
    hide TakeStep, CanStep;
    if a == [] {
      assert a + b == b;
    } else {
      assert (a + b)[1..] == a[1..] + b;
      InTwo(TakeStep(s, startedAt, a[0]), startedAt, a[1..], b);
    }
  }

  function TimesFired(fired: seq<Firing>, id: string): nat {
    if fired == [] then 0
    else TimesFired(fired[..|fired| - 1], id) + if fired[|fired| - 1].id == id then 1 else 0
  }

  ghost predicate FiresNoMore(s: State, startedAt: int, steps: seq<Step>, id: string) {
    Allowed(s, startedAt, steps) ==> TimesFired(RanFrom(s, startedAt, steps).fired, id) == TimesFired(s.fired, id)
  }

  /** No continuation from here fires `id`. */
  ghost predicate Retired(s: State, startedAt: int, id: string) {
    forall steps :: FiresNoMore(s, startedAt, steps, id)
  }

  /** The sweep under way has `id` next to fire, is about to start it, or has started it and will write it
      back. */
  ghost predicate InTheSweep(s: State, startedAt: int, id: string) {
    match s.sweep
    case Idle => false
    case Listed(view, now) => NextToFire(view, startedAt, now, id)
    case Passed(e, _) => e.id == id
    case Started(e, _) => e.id == id && e.schedule.every > 0
  }

  // No continuation fires a schedule that is out of the store and out of the sweep.

  ghost predicate Gone(s: State, startedAt: int, id: string) {
    && Clean(id) && id in s.used && id !in s.entries && !InTheSweep(s, startedAt, id)
    && (s.sweep.Listed? ==> Sorted(s.sweep.view))
  }

  lemma ListedIsStored(view: seq<Entry>, entries: map<string, Schedule>, startedAt: int, now: int, id: string)
    requires IsListing(view, entries) && id !in entries
    ensures !NextToFire(view, startedAt, now, id)
  {
  }

  lemma GoneFromListing(s: State, startedAt: int, view: seq<Entry>, now: int, id: string)
    requires Gone(s, startedAt, id) && CanStep(s, List(view, now))
    ensures Gone(TakeStep(s, startedAt, List(view, now)), startedAt, id)
  {
    hide NextToFire, Sorted, Clean, IsListing;
    SortedListing(view, s.entries);
    ListedIsStored(view, s.entries, startedAt, now, id);
  }

  lemma GoneFromCheck(s: State, startedAt: int, stuck: set<string>, id: string)
    requires Gone(s, startedAt, id) && CanStep(s, Check(stuck))
    ensures Gone(TakeStep(s, startedAt, Check(stuck)), startedAt, id)
  {
    hide Scanned, NextToFire, Sorted, Clean, Due;
    ScanFinds(s.entries, startedAt, s.sweep.view, s.sweep.now, stuck);
    ScanFindsNext(s.entries, startedAt, s.sweep.view, s.sweep.now, stuck, id);
  }

  lemma GoneFromSettling(entries: map<string, Schedule>, e: Entry, round: Round, id: string)
    requires id !in entries && (e.id == id ==> e.schedule.every == 0)
    ensures id !in Settled(entries, e, round)
  {
  }

  lemma GoneStaysGone(s: State, startedAt: int, step: Step, id: string)
    requires Gone(s, startedAt, id) && CanStep(s, step)
    ensures Gone(TakeStep(s, startedAt, step), startedAt, id)
    ensures TimesFired(TakeStep(s, startedAt, step).fired, id) == TimesFired(s.fired, id)
  {
    hide Scanned, NextToFire, Sorted, Clean, Settled, TimesFired, IsListing;
    match step
    case List(view, now) => GoneFromListing(s, startedAt, view, now, id);
    case Check(stuck) => GoneFromCheck(s, startedAt, stuck, id);
    case Start(ok, stuck) =>
      if ok {
        MoreFired(s.fired, Firing(s.sweep.e.id, s.sweep.e.schedule.runAt, s.sweep.now), id);
      }
    case Settle(saves, stuck) =>
      GoneFromSettling(s.entries, s.sweep.e, Round(s.sweep.now, false, true, saves, stuck), id);
    case _ =>
  }

  lemma SortedListing(view: seq<Entry>, entries: map<string, Schedule>)
    requires IsListing(view, entries)
    ensures Sorted(view)
  {
  }

  lemma MoreFired(fired: seq<Firing>, f: Firing, id: string)
    ensures TimesFired(fired + [f], id) == TimesFired(fired, id) + if f.id == id then 1 else 0
  {
    assert (fired + [f])[..|fired|] == fired;
  }

  lemma {:induction false} NeverAgain(s: State, startedAt: int, steps: seq<Step>, id: string)
    requires Gone(s, startedAt, id) && Allowed(s, startedAt, steps)
    ensures TimesFired(RanFrom(s, startedAt, steps).fired, id) == TimesFired(s.fired, id)
    decreases |steps|
  {
    hide Gone, TakeStep, CanStep;
    if steps != [] {
      GoneStaysGone(s, startedAt, steps[0], id);
      NeverAgain(TakeStep(s, startedAt, steps[0]), startedAt, steps[1..], id);
    }
  }

  // A schedule still in the sweep can be made to fire.

  /** Let every active run end. */
  lemma {:induction false} Drain(s: State, startedAt: int) returns (steps: seq<Step>)
    ensures Allowed(s, startedAt, steps) && RanFrom(s, startedAt, steps) == s.(active := {})
    decreases s.active
  {
    if s.active == {} {
      steps := [];
    } else {
      var run :| run in s.active;
      var rest := Drain(TakeStep(s, startedAt, RunEnds(run)), startedAt);
      steps := [RunEnds(run)] + rest;
      assert steps[1..] == rest;
    }
  }

  lemma PassedFires(s: State, startedAt: int)
    requires s.sweep.Passed?
    ensures Allowed(s, startedAt, [Start(true, {})])
    ensures TimesFired(RanFrom(s, startedAt, [Start(true, {})]).fired, s.sweep.e.id) == TimesFired(s.fired, s.sweep.e.id) + 1
  {
    var t := TakeStep(s, startedAt, Start(true, {}));
    MoreFired(s.fired, Firing(s.sweep.e.id, s.sweep.e.schedule.runAt, s.sweep.now), s.sweep.e.id);
    assert [Start(true, {})][1..] == [];
    assert RanFrom(t, startedAt, []) == t;
  }

  lemma ListedFires(s: State, startedAt: int, id: string) returns (steps: seq<Step>)
    requires s.sweep.Listed? && Sorted(s.sweep.view) && NextToFire(s.sweep.view, startedAt, s.sweep.now, id)
    ensures Allowed(s, startedAt, steps) && TimesFired(RanFrom(s, startedAt, steps).fired, id) == TimesFired(s.fired, id) + 1
  {
    hide NextToFire, Scanned, Sorted;
    var drain := Drain(s, startedAt);
    var t := s.(active := {});
    ScanFindsNext(t.entries, startedAt, t.sweep.view, t.sweep.now, {}, id);
    var u := TakeStep(t, startedAt, Check({}));
    PassedFires(u, startedAt);
    var last := [Check({})] + [Start(true, {})];
    assert last[1..] == [Start(true, {})] && last[0] == Check({});
    steps := drain + last;
    InTwo(s, startedAt, drain, last);
  }

  /** Cancel every other schedule. */
  lemma {:induction false} KeepOnly(s: State, startedAt: int, id: string) returns (steps: seq<Step>)
    requires id in s.entries && forall k :: k in s.entries ==> Clean(k)
    ensures Allowed(s, startedAt, steps) && RanFrom(s, startedAt, steps) == s.(entries := map[id := s.entries[id]])
    decreases |s.entries|
  {
    if k :| k in s.entries && k != id {
      DropKey(s.entries, k);
      var t := TakeStep(s, startedAt, Cancel(k));
      assert t.entries == s.entries - {k};
      var rest := KeepOnly(t, startedAt, id);
      steps := [Cancel(k)] + rest;
      assert steps[1..] == rest;
    } else {
      assert s.entries == map[id := s.entries[id]];
      steps := [];
    }
  }

  /** A stored schedule that was not overdue at startup can fire when no sweep is under way. */
  lemma StoredFires(s: State, startedAt: int, id: string) returns (steps: seq<Step>)
    requires s.sweep.Idle? && id in s.entries && s.entries[id].runAt >= startedAt
    requires forall k :: k in s.entries ==> Clean(k)
    ensures Allowed(s, startedAt, steps) && TimesFired(RanFrom(s, startedAt, steps).fired, id) == TimesFired(s.fired, id) + 1
  {
    var only := KeepOnly(s, startedAt, id);
    var t := s.(entries := map[id := s.entries[id]]);
    var e := Entry(id, s.entries[id]);
    var now := e.schedule.runAt;
    OneListing(e, t.entries);
    var u := TakeStep(t, startedAt, List([e], now));
    assert FirstUpAt([e], startedAt, id, 0);
    var rest := ListedFires(u, startedAt, id);
    var last := [List([e], now)] + rest;
    assert last[1..] == rest && last[0] == List([e], now);
    steps := only + last;
    hide TakeStep, CanStep;
    InTwo(s, startedAt, only, last);
  }

  lemma OneListing(e: Entry, entries: map<string, Schedule>)
    requires entries == map[e.id := e.schedule] && Clean(e.id)
    ensures IsListing([e], entries) && Sorted([e])
  {
    assert Lists([e], e.id) by {
      assert [e][0].id == e.id;
    }
  }

  lemma StartedFires(s: State, startedAt: int) returns (steps: seq<Step>)
    requires s.sweep.Started? && s.sweep.e.schedule.every > 0 && Clean(s.sweep.e.id)
    requires Due(s.sweep.e.schedule, startedAt, s.sweep.now) && forall k :: k in s.entries ==> Clean(k)
    ensures Allowed(s, startedAt, steps)
    ensures TimesFired(RanFrom(s, startedAt, steps).fired, s.sweep.e.id) == TimesFired(s.fired, s.sweep.e.id) + 1
  {
    hide Clean;
    var e, now := s.sweep.e, s.sweep.now;
    AdvanceLeast(e.schedule.runAt + e.schedule.every, e.schedule.every, now);
    var t := TakeStep(s, startedAt, Settle(true, {}));
    var rest := StoredFires(t, startedAt, e.id);
    steps := [Settle(true, {})] + rest;
    assert steps[1..] == rest && steps[0] == Settle(true, {});
  }

  /** A cancelled schedule can still fire exactly when a sweep under way has it: next to fire, about to start,
      or started and, if it recurs, about to be written back. Otherwise no continuation fires it. */
  lemma CancelSticksIff(s: State, startedAt: int, id: string)
    requires StoredKnown(s) && SweepKnown(s, startedAt) && Clean(id) && id in s.used
    ensures Retired(TakeStep(s, startedAt, Cancel(id)), startedAt, id) <==> !InTheSweep(s, startedAt, id)
  {
    hide Clean, Due, NextToFire, StoredIsLater, SweepIsLater, Separate, OnTime, Sorted;
    var after := TakeStep(s, startedAt, Cancel(id));
    CancelRemoves(s.entries, id);
    if InTheSweep(s, startedAt, id) {
      var steps := SweepFires(after, startedAt, id);
      assert !FiresNoMore(after, startedAt, steps, id);
    } else {
      forall steps ensures FiresNoMore(after, startedAt, steps, id) {
        if Allowed(after, startedAt, steps) {
          NeverAgain(after, startedAt, steps, id);
        }
      }
    }
  }

  lemma CancelRemoves(entries: map<string, Schedule>, id: string)
    requires Clean(id)
    ensures Removed(entries, id, {}) == entries - {id}
  {
  }

  lemma SweepFires(s: State, startedAt: int, id: string) returns (steps: seq<Step>)
    requires StoredKnown(s) && SweepKnown(s, startedAt) && InTheSweep(s, startedAt, id)
    ensures Allowed(s, startedAt, steps) && TimesFired(RanFrom(s, startedAt, steps).fired, id) == TimesFired(s.fired, id) + 1
  {
    match s.sweep
    case Listed(_, _) => steps := ListedFires(s, startedAt, id);
    case Passed(_, _) =>
      PassedFires(s, startedAt);
      steps := [Start(true, {})];
    case Started(_, _) => steps := StartedFires(s, startedAt);
  }

  /** There a recurring schedule, cancelled after the sweep has read it, is fired and written back to go on
      firing. */
  lemma CancelDuringSweepIsLost(s: State, startedAt: int, e: Entry, now: int)
    requires s.sweep == Listed([e], now) && s.active == {} && Clean(e.id)
    requires Due(e.schedule, startedAt, now) && e.schedule.every > 0
    ensures var t := TakeStep(TakeStep(s, startedAt, Cancel(e.id)), startedAt, Check({}));
            var u := TakeStep(TakeStep(t, startedAt, Start(true, {})), startedAt, Settle(true, {}));
            && u.fired == s.fired + [Firing(e.id, e.schedule.runAt, now)]
            && e.id in u.entries && u.entries[e.id].runAt > now
  {
    AdvanceLeast(e.schedule.runAt + e.schedule.every, e.schedule.every, now);
    CancelRemoves(s.entries, e.id);
    assert Scanned(s.entries - {e.id}, startedAt, [e], now, {}) == Found(s.entries - {e.id}, Some(e));
  }
}
