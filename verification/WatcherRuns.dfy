/** Registrations, ticks and a draining consumer in any interleaving. */
module WatcherRuns {

  import opened Collections
  import opened TrackedNames
  import opened Watcher

  /** An offer to the channel, and whether there was room. */
  datatype Outcome = Outcome(result: Result, sent: bool)

  /** A tick holds the lock while it scans for overdue entries (`scanning` is what is left, `now` its
      clock), then looks up the entries of its snapshot with the lock free (`todo` is what is left).
      `log` is every registration; `replaced` counts those overwritten while still pending. */
  datatype State = State(pending: map<string, Entry>, scanning: set<string>, now: int, todo: seq<Entry>,
                         queue: seq<Result>, received: seq<Result>, outcomes: seq<Outcome>,
                         log: seq<Entry>, replaced: nat)

  datatype Step =
    | Register(user: string, basename: string, deadline: int)
    | BeginTick(now: int)
    | Scan(key: string)
    | Look(i: nat, names: seq<string>, at: int)
    | Receive

  const INITIAL := State(map[], {}, 0, [], [], [], [], [], 0)

  predicate CanStep(s: State, step: Step) {
    match step
    case Register(_, _, _) => s.scanning == {}
    case BeginTick(_) => s.scanning == {} && s.todo == []
    case Scan(key) => key in s.scanning && key in s.pending
    case Look(i, _, _) => s.scanning == {} && i < |s.todo|
    case Receive => s.queue != []
  }

  function Offered(s: State, r: Result): State {
    s.(queue := Offer(s.queue, r), outcomes := s.outcomes + [Outcome(r, |s.queue| < CHANNEL)])
  }

  /** A step that is not possible changes nothing; a folder that cannot be listed is a listing that
      holds nothing. */
  function TakeStep(s: State, step: Step): State {
    if !CanStep(s, step) then s
    else
      match step
      case Register(user, basename, deadline) =>
        var e := Entry(|s.log|, user, basename, deadline);
        s.(pending := s.pending[KeyOf(e) := e], log := s.log + [e],
           replaced := s.replaced + if KeyOf(e) in s.pending then 1 else 0)
      case BeginTick(now) => s.(scanning := s.pending.Keys, now := now)
      case Scan(key) =>
        var e, t := s.pending[key], s.(scanning := s.scanning - {key});
        if s.now > e.deadline then Offered(t.(pending := s.pending - {key}), Result(e, None, s.now))
        else t.(todo := s.todo + [e])
      case Look(i, names, at) =>
        var e, t := s.todo[i], s.(todo := s.todo[..i] + s.todo[i + 1..]);
        if e.basename in PrefixMap(names) then
          Offered(t.(pending := s.pending - {KeyOf(e)}), Result(e, Some(PrefixMap(names)[e.basename]), at))
        else t
      case Receive => s.(queue := s.queue[1..], received := s.received + [s.queue[0]])
  }

  function Run(steps: seq<Step>): State {
    if steps == [] then INITIAL else TakeStep(Run(steps[..|steps| - 1]), steps[|steps| - 1])
  }

  // ---------------------------------------------------------------- what is reported

  /** The step looked the entry up in a listing whose last name for it carries the id. */
  ghost predicate ListedBy(step: Step, r: Result) {
    && step.Look? && r.at == step.at
    && exists k: nat :: IsLast(step.names, r.entry.basename, k)
                        && r.trackID == Some(step.names[k][|r.entry.basename| + 1..])
  }

  /** Every id reported is one that a listing showed for that very name, at the time it was looked up. */
  lemma {:induction false} IdsWereListed(steps: seq<Step>, i: nat)
    requires i < |Run(steps).outcomes| && Run(steps).outcomes[i].result.trackID.Some?
    ensures exists n :: 0 <= n < |steps| && ListedBy(steps[n], Run(steps).outcomes[i].result)
  {
    hide KeyOf, ListedBy, Offer;
    if steps != [] {
      var init, step := steps[..|steps| - 1], steps[|steps| - 1];
      var s := Run(init);
      if i < |s.outcomes| {
        IdsWereListed(init, i);
        var n :| 0 <= n < |init| && ListedBy(init[n], s.outcomes[i].result);
        assert steps[n] == init[n];
      } else {
        LookLists(s, step);
        assert ListedBy(steps[|steps| - 1], Run(steps).outcomes[i].result);
      }
    }
  }

  lemma LookLists(s: State, step: Step)
    requires CanStep(s, step) && step.Look? && s.todo[step.i].basename in PrefixMap(step.names)
    ensures ListedBy(step, Result(s.todo[step.i], Some(PrefixMap(step.names)[s.todo[step.i].basename]), step.at))
  {
    PrefixMapIsLastMatch(step.names, s.todo[step.i].basename);
  }

  /** A result is dropped exactly when 512 are waiting to be taken; otherwise it is queued behind them. */
  lemma DroppedOnlyWhenFull(steps: seq<Step>, step: Step)
    requires var s, t := Run(steps), TakeStep(Run(steps), step); |t.outcomes| > |s.outcomes|
    ensures var s, t := Run(steps), TakeStep(Run(steps), step);
            && |t.outcomes| == |s.outcomes| + 1
            && var o := t.outcomes[|s.outcomes|];
               (o.sent <==> |s.queue| < 512) && t.queue == if |s.queue| < 512 then s.queue + [o.result] else s.queue
  {
    hide Run;
  }

  // ---------------------------------------------------------------- a whole tick

  /** The scan's steps for the keys, in that order. */
  function ScannedAll(s: State, keys: seq<string>): State {
    if keys == [] then s else TakeStep(ScannedAll(s, keys[..|keys| - 1]), Scan(keys[|keys| - 1]))
  }

  ghost predicate EachOnce(keys: seq<string>, all: set<string>) {
    && (forall k :: k in keys <==> k in all)
    && forall i, j :: 0 <= i < j < |keys| ==> keys[i] != keys[j]
  }

  /** The tick begun at `s` when the keys in `done` have been scanned. */
  ghost predicate Scanning(s: State, now: int, done: set<string>, t: State) {
    && t.now == now && t.scanning == s.pending.Keys - done
    && (forall k :: k in t.pending <==> k in s.pending && (k !in done || now <= s.pending[k].deadline))
    && (forall k :: k in t.pending ==> t.pending[k] == s.pending[k])
  }

  lemma ScanOne(s: State, now: int, done: set<string>, t: State, key: string)
    requires Scanning(s, now, done, t) && key in s.pending && key !in done
    ensures Scanning(s, now, done + {key}, TakeStep(t, Scan(key)))
  {
    hide KeyOf, Offer;
  }

  function KeysIn(keys: seq<string>): set<string> {
    set k | k in keys
  }

  lemma {:induction false} PartOfScan(s: State, now: int, keys: seq<string>, n: nat)
    requires s.scanning == {} && s.todo == [] && EachOnce(keys, s.pending.Keys) && n <= |keys|
    ensures Scanning(s, now, KeysIn(keys[..n]), ScannedAll(TakeStep(s, BeginTick(now)), keys[..n]))
  {
    if n == 0 {
      hide KeyOf, Offer, PrefixMap, EachOnce;
      assert keys[..0] == [];
    } else {
      hide Scanning, TakeStep;
      PartOfScan(s, now, keys, n - 1);
      assert keys[..n][..n - 1] == keys[..n - 1] && keys[..n] == keys[..n - 1] + [keys[n - 1]];
      assert KeysIn(keys[..n]) == KeysIn(keys[..n - 1]) + {keys[n - 1]};
      assert keys[n - 1] !in KeysIn(keys[..n - 1]);
      ScanOne(s, now, KeysIn(keys[..n - 1]), ScannedAll(TakeStep(s, BeginTick(now)), keys[..n - 1]), keys[n - 1]);
    }
  }

  /** A tick that scans everything, in whatever order, leaves exactly the entries that are not overdue. */
  lemma WholeTickExpires(s: State, now: int, keys: seq<string>)
    requires s.scanning == {} && s.todo == [] && EachOnce(keys, s.pending.Keys)
    ensures var t := ScannedAll(TakeStep(s, BeginTick(now)), keys);
            t.scanning == {} && t.pending == map k | k in s.pending && now <= s.pending[k].deadline :: s.pending[k]
  {
    PartOfScan(s, now, keys, |keys|);
    assert keys[..|keys|] == keys && KeysIn(keys) == s.pending.Keys;
    hide TakeStep, ScannedAll;
  }

  // ---------------------------------------------------------------- what every step keeps

  ghost predicate Logged(s: State, e: Entry) {
    e.serial < |s.log| && s.log[e.serial] == e
  }

  ghost predicate PendingKnown(s: State) {
    forall k :: k in s.pending ==> k == KeyOf(s.pending[k]) && Logged(s, s.pending[k])
  }

  ghost predicate OutcomesKnown(s: State) {
    forall i :: 0 <= i < |s.outcomes| ==> Logged(s, s.outcomes[i].result.entry)
  }

  ghost predicate TodoKnown(s: State) {
    && s.scanning <= s.pending.Keys
    && (forall i :: 0 <= i < |s.todo| ==>
                      Logged(s, s.todo[i]) && KeyOf(s.todo[i]) in s.pending && KeyOf(s.todo[i]) !in s.scanning)
    && (forall i, j :: 0 <= i < j < |s.todo| ==> KeyOf(s.todo[i]) != KeyOf(s.todo[j]))
  }

  ghost predicate Reported(s: State, e: Entry) {
    exists i :: 0 <= i < |s.outcomes| && s.outcomes[i].result.entry == e
  }

  /** No registration has two results, and one that has a result is no longer awaited or looked up. */
  ghost predicate OneResultEach(s: State) {
    && (forall i, j :: 0 <= i < j < |s.outcomes| ==> s.outcomes[i].result.entry != s.outcomes[j].result.entry)
    && (forall k :: k in s.pending ==> !Reported(s, s.pending[k]))
    && (forall i :: 0 <= i < |s.todo| ==> !Reported(s, s.todo[i]))
  }

  function Sent(outcomes: seq<Outcome>): seq<Result> {
    if outcomes == [] then []
    else
      var o := outcomes[|outcomes| - 1];
      Sent(outcomes[..|outcomes| - 1]) + if o.sent then [o.result] else []
  }

  /** The consumer sees what was sent, in order; the channel never overflows. */
  ghost predicate Delivered(s: State) {
    s.received + s.queue == Sent(s.outcomes) && |s.queue| <= CHANNEL
  }

  ghost predicate Balanced(s: State) {
    |s.log| == |s.pending| + |s.outcomes| + s.replaced
  }

  ghost predicate TimeoutsAreLate(s: State) {
    forall i :: 0 <= i < |s.outcomes| && s.outcomes[i].result.trackID.None? ==>
                  s.outcomes[i].result.at > s.outcomes[i].result.entry.deadline
  }

  ghost predicate Inv(s: State) {
    && PendingKnown(s) && OutcomesKnown(s) && TodoKnown(s) && OneResultEach(s)
    && Delivered(s) && Balanced(s) && TimeoutsAreLate(s)
  }

  lemma SentOne(outcomes: seq<Outcome>, o: Outcome)
    ensures Sent(outcomes + [o]) == Sent(outcomes) + if o.sent then [o.result] else []
  {
  }

  lemma RegisterKeeps(s: State, user: string, basename: string, deadline: int)
    requires Inv(s) && CanStep(s, Register(user, basename, deadline))
    ensures Inv(TakeStep(s, Register(user, basename, deadline)))
  {
    hide KeyOf, Sent, Reported, OneResultEach;
    var e := Entry(|s.log|, user, basename, deadline);
    AddKey(s.pending, KeyOf(e), e);
    var t := TakeStep(s, Register(user, basename, deadline));
    assert forall x :: Logged(s, x) ==> Logged(t, x);
    assert Logged(t, e);
    NewIsUnreported(s, t, e);
  }

  lemma NewIsUnreported(s: State, t: State, e: Entry)
    requires OutcomesKnown(s) && OneResultEach(s) && e.serial == |s.log|
    requires t.outcomes == s.outcomes && t.pending == s.pending[KeyOf(e) := e] && t.todo == s.todo
    ensures OneResultEach(t)
  {
    hide KeyOf;
    assert forall x :: Reported(t, x) <==> Reported(s, x);
    assert !Reported(s, e);
  }

  /** Entry `e`, which had no result and was not looked up further, gets result `r` and leaves. */
  lemma OfferKeeps(s: State, t: State, e: Entry, r: Result)
    requires PendingKnown(s) && OutcomesKnown(s) && Delivered(s) && Balanced(s) && TimeoutsAreLate(s) && OneResultEach(s)
    requires KeyOf(e) in s.pending && Logged(s, e) && !Reported(s, e) && r.entry == e
    requires r.trackID.None? ==> r.at > e.deadline
    requires t.pending == s.pending - {KeyOf(e)} && t.log == s.log && t.replaced == s.replaced && t.received == s.received
    requires t.queue == s.queue && t.outcomes == s.outcomes
    requires forall i :: 0 <= i < |t.todo| ==> t.todo[i] in s.todo && KeyOf(t.todo[i]) != KeyOf(e)
    ensures var u := Offered(t, r);
            PendingKnown(u) && OutcomesKnown(u) && Delivered(u) && Balanced(u) && TimeoutsAreLate(u) && OneResultEach(u)
  {
    hide KeyOf, Sent, OneResultEach, Reported;
    var u := Offered(t, r);
    DropKey(s.pending, KeyOf(e));
    SentOne(s.outcomes, Outcome(r, |s.queue| < CHANNEL));
    assert forall x :: Logged(s, x) <==> Logged(u, x);
    OneMoreResult(s, t, e, r);
  }

  lemma OneMoreResult(s: State, t: State, e: Entry, r: Result)
    requires PendingKnown(s) && OneResultEach(s) && !Reported(s, e) && r.entry == e
    requires t.pending == s.pending - {KeyOf(e)} && t.outcomes == s.outcomes
    requires forall i :: 0 <= i < |t.todo| ==> t.todo[i] in s.todo && KeyOf(t.todo[i]) != KeyOf(e)
    ensures OneResultEach(Offered(t, r))
  {
    hide KeyOf, Sent;
    var u := Offered(t, r);
    forall x | Reported(u, x) ensures Reported(s, x) || x == e {
      var i :| 0 <= i < |u.outcomes| && u.outcomes[i].result.entry == x;
      if i < |s.outcomes| {
        assert s.outcomes[i].result.entry == x;
      }
    }
    forall i | 0 <= i < |s.outcomes| ensures s.outcomes[i].result.entry != e {
      assert Reported(s, s.outcomes[i].result.entry);
    }
  }

  lemma ScanKeeps(s: State, key: string)
    requires Inv(s) && CanStep(s, Scan(key))
    ensures Inv(TakeStep(s, Scan(key)))
  {
    hide KeyOf, Sent, Delivered, Balanced, TimeoutsAreLate, OneResultEach;
    var e, t := s.pending[key], s.(scanning := s.scanning - {key});
    if s.now > e.deadline {
      assert !Reported(s, e) by {
        NotReported(s, key);
      }
      OfferKeeps(s, t.(pending := s.pending - {key}), e, Result(e, None, s.now));
    } else {
      KeepForLater(s, key);
    }
  }

  lemma NotReported(s: State, key: string)
    requires OneResultEach(s) && key in s.pending
    ensures !Reported(s, s.pending[key])
  {
  }

  lemma KeepForLater(s: State, key: string)
    requires Inv(s) && key in s.scanning && key in s.pending && s.now <= s.pending[key].deadline
    ensures Inv(TakeStep(s, Scan(key)))
  {
    hide KeyOf, Sent;
    var t := TakeStep(s, Scan(key));
    assert t.outcomes == s.outcomes;
    assert forall x :: Reported(t, x) <==> Reported(s, x);
    assert forall x :: Logged(s, x) <==> Logged(t, x);
  }

  /** Taking one entry off the list of look-ups. */
  lemma TakeOff(s: State, t: State, i: nat)
    requires TodoKnown(s) && OneResultEach(s) && i < |s.todo| && s.scanning == {}
    requires t == s.(todo := s.todo[..i] + s.todo[i + 1..])
    ensures TodoKnown(t) && OneResultEach(t)
    ensures forall j :: 0 <= j < |t.todo| ==> t.todo[j] in s.todo && KeyOf(t.todo[j]) != KeyOf(s.todo[i])
  {
    hide KeyOf;
    assert forall j :: 0 <= j < |t.todo| ==> t.todo[j] == s.todo[if j < i then j else j + 1];
    assert forall x :: Reported(t, x) <==> Reported(s, x);
    assert forall x :: Logged(t, x) <==> Logged(s, x);
  }

  lemma LookKeeps(s: State, i: nat, names: seq<string>, at: int)
    requires Inv(s) && CanStep(s, Look(i, names, at))
    ensures Inv(TakeStep(s, Look(i, names, at)))
  {
    hide KeyOf, Sent, Delivered, Balanced, TimeoutsAreLate, PrefixMap, OneResultEach, Offered;
    var e, t := s.todo[i], s.(todo := s.todo[..i] + s.todo[i + 1..]);
    TakeOff(s, t, i);
    if e.basename in PrefixMap(names) {
      TodoUnreported(s, i);
      var r := Result(e, Some(PrefixMap(names)[e.basename]), at);
      OfferKeeps(s, t.(pending := s.pending - {KeyOf(e)}), e, r);
      StillTodo(t, e, r);
    } else {
      SameBooks(s, t);
    }
  }

  lemma TodoUnreported(s: State, i: nat)
    requires OneResultEach(s) && i < |s.todo|
    ensures !Reported(s, s.todo[i])
  {
  }

  lemma StillTodo(t: State, e: Entry, r: Result)
    requires TodoKnown(t) && t.scanning == {} && forall j :: 0 <= j < |t.todo| ==> KeyOf(t.todo[j]) != KeyOf(e)
    ensures TodoKnown(Offered(t.(pending := t.pending - {KeyOf(e)}), r))
  {
  }

  lemma SameBooks(s: State, t: State)
    requires Delivered(s) && Balanced(s) && TimeoutsAreLate(s)
    requires t.pending == s.pending && t.log == s.log && t.replaced == s.replaced && t.outcomes == s.outcomes
    requires t.received == s.received && t.queue == s.queue
    ensures Delivered(t) && Balanced(t) && TimeoutsAreLate(t)
  {
  }

  lemma ReceiveKeeps(s: State)
    requires Inv(s) && CanStep(s, Receive)
    ensures Inv(TakeStep(s, Receive))
  {
    hide KeyOf, Sent;
    var t := TakeStep(s, Receive);
    assert s.queue == [s.queue[0]] + s.queue[1..];
    assert t.received + t.queue == s.received + s.queue;
    assert forall x :: Reported(t, x) <==> Reported(s, x);
    assert forall x :: Logged(s, x) <==> Logged(t, x);
  }

  lemma StepKeeps(s: State, step: Step)
    requires Inv(s)
    ensures Inv(TakeStep(s, step))
  {
    if !CanStep(s, step) {
      return;
    }
    match step
    case Register(user, basename, deadline) => RegisterKeeps(s, user, basename, deadline);
    case BeginTick(now) =>
      var t := TakeStep(s, step);
      assert forall x :: Reported(t, x) <==> Reported(s, x);
      assert forall x :: Logged(s, x) <==> Logged(t, x);
    case Scan(key) => ScanKeeps(s, key);
    case Look(i, names, at) => LookKeeps(s, i, names, at);
    case Receive => ReceiveKeeps(s);
  }

  lemma {:induction false} RunKeeps(steps: seq<Step>)
    ensures Inv(Run(steps))
  {
    if steps != [] {
      RunKeeps(steps[..|steps| - 1]);
      StepKeeps(Run(steps[..|steps| - 1]), steps[|steps| - 1]);
    }
  }

  /** Over every interleaving: each registration is pending, answered once (delivered, waiting in the
      channel, or lost because it was full) or overwritten; results arrive in the order they were
      sent; and no timeout is early. */
  lemma EveryRegistrationIsAccountedFor(steps: seq<Step>)
    ensures var s := Run(steps);
            && |s.log| == |s.pending| + |s.received| + |s.queue| + (|s.outcomes| - |Sent(s.outcomes)|) + s.replaced
            && s.received + s.queue == Sent(s.outcomes) && |s.queue| <= CHANNEL
            && (forall i, j :: 0 <= i < j < |s.outcomes| ==> s.outcomes[i].result.entry.serial != s.outcomes[j].result.entry.serial)
            && (forall i :: 0 <= i < |s.outcomes| && s.outcomes[i].result.trackID.None? ==>
                              s.outcomes[i].result.at > s.outcomes[i].result.entry.deadline)
  {
    hide TakeStep, Sent;
    var s := Run(steps);
    RunKeeps(steps);
    assert |s.received + s.queue| == |s.received| + |s.queue|;
  }

  // ---------------------------------------------------------------- when nothing is lost

  /** Every registration is pending or has a result. */
  ghost predicate AllAccounted(s: State) {
    forall i :: 0 <= i < |s.log| ==> AccountedFor(s, s.log[i])
  }

  ghost predicate AccountedFor(s: State, e: Entry) {
    Awaited(s.pending, e) || Reported(s, e)
  }

  /** What is being looked up is what is pending. */
  ghost predicate TodoCurrent(s: State) {
    forall i :: 0 <= i < |s.todo| ==> Awaited(s.pending, s.todo[i])
  }

  lemma OfferReports(s: State, r: Result)
    ensures Reported(Offered(s, r), r.entry)
  {
    assert Offered(s, r).outcomes[|s.outcomes|].result == r;
  }

  lemma RegisterAccounts(s: State, user: string, basename: string, deadline: int)
    requires AllAccounted(s) && TodoCurrent(s) && CanStep(s, Register(user, basename, deadline))
    requires UserKey(user, basename) !in s.pending
    ensures AllAccounted(TakeStep(s, Register(user, basename, deadline)))
    ensures TodoCurrent(TakeStep(s, Register(user, basename, deadline)))
  {
  }

  /** Losing the pending entry that has just been reported keeps every registration accounted for. */
  lemma LeavingAccounts(s: State, t: State, e: Entry)
    requires AllAccounted(s) && TodoCurrent(s) && t.log == s.log
    requires Awaited(s.pending, e) && t.pending == s.pending - {KeyOf(e)}
    requires Reported(t, e) && s.outcomes <= t.outcomes
    requires forall i :: 0 <= i < |t.todo| ==> t.todo[i] in s.todo && KeyOf(t.todo[i]) != KeyOf(e)
    ensures AllAccounted(t) && TodoCurrent(t)
  {
  }

  lemma SameAccounts(s: State, t: State)
    requires AllAccounted(s) && TodoCurrent(s)
    requires t.log == s.log && t.pending == s.pending && t.outcomes == s.outcomes
    requires forall i :: 0 <= i < |t.todo| ==> Awaited(t.pending, t.todo[i])
    ensures AllAccounted(t) && TodoCurrent(t)
  {
  }

  lemma ScanAccounts(s: State, key: string)
    requires Inv(s) && AllAccounted(s) && TodoCurrent(s) && CanStep(s, Scan(key))
    ensures AllAccounted(TakeStep(s, Scan(key))) && TodoCurrent(TakeStep(s, Scan(key)))
  {
    hide KeyOf, Reported, OneResultEach, Delivered, OutcomesKnown, TimeoutsAreLate, Balanced, AllAccounted;
    var t := TakeStep(s, Scan(key));
    var e := s.pending[key];
    if s.now > e.deadline {
      OfferReports(s.(scanning := s.scanning - {key}, pending := s.pending - {key}), Result(e, None, s.now));
      LeavingAccounts(s, t, e);
    } else {
      SameAccounts(s, t);
    }
  }

  lemma LookAccounts(s: State, i: nat, names: seq<string>, at: int)
    requires TodoKnown(s) && AllAccounted(s) && TodoCurrent(s) && CanStep(s, Look(i, names, at))
    ensures AllAccounted(TakeStep(s, Look(i, names, at))) && TodoCurrent(TakeStep(s, Look(i, names, at)))
  {
    hide KeyOf, Reported, AllAccounted, PrefixMap;
    var t := TakeStep(s, Look(i, names, at));
    var e := s.todo[i];
    var rest := s.todo[..i] + s.todo[i + 1..];
    assert forall j :: 0 <= j < |rest| ==> rest[j] == s.todo[if j < i then j else j + 1];
    if e.basename in PrefixMap(names) {
      OfferReports(s.(todo := rest, pending := s.pending - {KeyOf(e)}), Result(e, Some(PrefixMap(names)[e.basename]), at));
      LeavingAccounts(s, t, e);
    } else {
      SameAccounts(s, t);
    }
  }

  lemma StepAccounts(s: State, step: Step)
    requires Inv(s) && AllAccounted(s) && TodoCurrent(s) && TakeStep(s, step).replaced == s.replaced
    ensures AllAccounted(TakeStep(s, step)) && TodoCurrent(TakeStep(s, step))
  {
    hide KeyOf, Reported, AllAccounted, PrefixMap, Awaited;
    if !CanStep(s, step) {
      return;
    }
    match step
    case Register(user, basename, deadline) =>
      KeyOfIs(Entry(|s.log|, user, basename, deadline));
      RegisterAccounts(s, user, basename, deadline);
    case Scan(key) => ScanAccounts(s, key);
    case Look(i, names, at) => LookAccounts(s, i, names, at);
    case BeginTick(_) => SameAccounts(s, TakeStep(s, step));
    case Receive => SameAccounts(s, TakeStep(s, step));
  }

  lemma KeyOfIs(e: Entry)
    ensures KeyOf(e) == UserKey(e.user, e.basename)
  {
  }

  lemma StepCounts(s: State, step: Step)
    ensures TakeStep(s, step).replaced >= s.replaced && s.log <= TakeStep(s, step).log
    ensures forall i :: |s.log| <= i < |TakeStep(s, step).log| ==> TakeStep(s, step).log[i].serial == i
  {
  }

  lemma {:induction false} RunAccounts(steps: seq<Step>)
    requires Run(steps).replaced == 0
    ensures AllAccounted(Run(steps)) && TodoCurrent(Run(steps))
  {
    if steps != [] {
      var init := steps[..|steps| - 1];
      StepCounts(Run(init), steps[|steps| - 1]);
      RunKeeps(init);
      RunAccounts(init);
      StepAccounts(Run(init), steps[|steps| - 1]);
    }
  }

  lemma {:induction false} Numbered(steps: seq<Step>)
    ensures forall i :: 0 <= i < |Run(steps).log| ==> Run(steps).log[i].serial == i
  {
    if steps != [] {
      hide TakeStep;
      Numbered(steps[..|steps| - 1]);
      StepCounts(Run(steps[..|steps| - 1]), steps[|steps| - 1]);
    }
  }

  function Entries(s: seq<Entry>): set<Entry> {
    set e | e in s
  }

  function ReportedEntries(s: seq<Outcome>): (r: set<Entry>)
    ensures |r| <= |s|
    ensures forall i :: 0 <= i < |s| ==> s[i].result.entry in r
  {
    if s == [] then {} else ReportedEntries(s[..|s| - 1]) + {s[|s| - 1].result.entry}
  }

  function PendingAt(m: map<string, Entry>, keys: set<string>): set<Entry>
    requires keys <= m.Keys
  {
    set k | k in keys :: m[k]
  }

  lemma {:induction false} PendingFew(m: map<string, Entry>, keys: set<string>)
    requires keys <= m.Keys
    ensures |PendingAt(m, keys)| <= |keys|
    decreases |keys|
  {
    if keys == {} {
      assert PendingAt(m, keys) == {};
    } else {
      var k :| k in keys;
      PendingFew(m, keys - {k});
      assert PendingAt(m, keys) == PendingAt(m, keys - {k}) + {m[k]};
    }
  }

  lemma {:induction false} DistinctCount(s: seq<Entry>)
    requires forall i :: 0 <= i < |s| ==> s[i].serial == i
    ensures |Entries(s)| == |s|
  {
    if s != [] {
      var init, last := s[..|s| - 1], s[|s| - 1];
      DistinctCount(init);
      assert Entries(s) == Entries(init) + {last};
    }
  }

  lemma CountedAll(s: State)
    requires Balanced(s) && AllAccounted(s) && forall i :: 0 <= i < |s.log| ==> s.log[i].serial == i
    ensures s.replaced == 0
  {
    DistinctCount(s.log);
    var p, r := PendingAt(s.pending, s.pending.Keys), ReportedEntries(s.outcomes);
    PendingFew(s.pending, s.pending.Keys);
    assert |s.pending.Keys| == |s.pending|;
    forall e | e in Entries(s.log) ensures e in p + r {
      var i :| 0 <= i < |s.log| && s.log[i] == e;
      assert AccountedFor(s, s.log[i]);
    }
    SubsetSize(Entries(s.log), p + r);
  }

  /** Every registration is pending or has exactly one result if and only if no name was ever registered
      again while it was pending. */
  lemma NothingLostIff(steps: seq<Step>)
    ensures (forall i :: 0 <= i < |Run(steps).log| ==>
                           (Awaited(Run(steps).pending, Run(steps).log[i]) <==> !Reported(Run(steps), Run(steps).log[i])))
            <==> Run(steps).replaced == 0
  {
    hide TakeStep, Delivered, TodoKnown, OutcomesKnown, TimeoutsAreLate, PendingKnown, Reported, Balanced;
    var s := Run(steps);
    RunKeeps(steps);
    Numbered(steps);
    if s.replaced == 0 {
      RunAccounts(steps);
      forall i | 0 <= i < |s.log| ensures Awaited(s.pending, s.log[i]) <==> !Reported(s, s.log[i]) {
        assert AccountedFor(s, s.log[i]);
      }
    }
    if forall i :: 0 <= i < |s.log| ==> (Awaited(s.pending, s.log[i]) <==> !Reported(s, s.log[i])) {
      assert AllAccounted(s);
      CountedAll(s);
    }
  }

  /** What the pending count tells the drain that waits for it: the registrations without a result, less the
      overwritten ones; and, if none was overwritten, it is zero exactly when every registration has one. */
  lemma PendingCountMeaning(steps: seq<Step>)
    ensures var s := Run(steps);
            && |s.pending| == |s.log| - |s.outcomes| - s.replaced
            && (s.replaced == 0 ==> (|s.pending| == 0 <==> forall i :: 0 <= i < |s.log| ==> Reported(s, s.log[i])))
  {
    hide TakeStep, Delivered, TodoKnown, OutcomesKnown, TimeoutsAreLate, OneResultEach, Reported;
    var s := Run(steps);
    RunKeeps(steps);
    NothingLostIff(steps);
    if s.replaced == 0 {
      if k :| k in s.pending {
        var i := s.pending[k].serial;
        assert Awaited(s.pending, s.log[i]);
        assert !Reported(s, s.log[i]);
      } else {
        assert forall i :: 0 <= i < |s.log| ==> !Awaited(s.pending, s.log[i]);
      }
    }
  }

  ghost predicate NamesOnce(log: seq<Entry>) {
    forall i, j :: 0 <= i < j < |log| ==> KeyOf(log[i]) != KeyOf(log[j])
  }

  /** Names used once, as generated names are, are never registered again while pending. */
  lemma {:induction false} UniqueNamesSuffice(steps: seq<Step>)
    requires NamesOnce(Run(steps).log)
    ensures Run(steps).replaced == 0
  {
    if steps != [] {
      var init, step := steps[..|steps| - 1], steps[|steps| - 1];
      var s, t := Run(init), Run(steps);
      StepCounts(s, step);
      RunKeeps(init);
      UniqueNamesSuffice(init);
      if step.Register? && CanStep(s, step) {
        NewNameIsNotPending(s, t);
      }
    }
  }

  lemma NewNameIsNotPending(s: State, t: State)
    requires PendingKnown(s) && |t.log| == |s.log| + 1 && s.log <= t.log && NamesOnce(t.log)
    ensures KeyOf(t.log[|s.log|]) !in s.pending
  {
    hide KeyOf;
    forall k | k in s.pending ensures k != KeyOf(t.log[|s.log|]) {
      assert t.log[s.pending[k].serial] == s.pending[k];
    }
  }

  /** A name registered again while a tick is looking it up: the first result clears the second
      registration, which then gets none. */
  lemma ReRegisteredDuringTick(s: State, name: string, deadline: int, names: seq<string>, at: int)
    requires Inv(s) && s.scanning == {} && |s.todo| == 1 && s.todo[0].basename == name && name in PrefixMap(names)
    ensures var t := TakeStep(s, Register(s.todo[0].user, name, deadline));
            var u := TakeStep(t, Look(0, names, at));
            && Awaited(t.pending, t.log[|s.log|])
            && !Awaited(u.pending, u.log[|s.log|]) && !Reported(u, u.log[|s.log|])
            && u.replaced == s.replaced + 1
  {
    var t := TakeStep(s, Register(s.todo[0].user, name, deadline));
    var u := TakeStep(t, Look(0, names, at));
    StepKeeps(s, Register(s.todo[0].user, name, deadline));
    assert u.outcomes == t.outcomes + [u.outcomes[|t.outcomes|]];
    assert u.log[|s.log|].serial == |s.log| && s.todo[0].serial < |s.log|;
  }
}
