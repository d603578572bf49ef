/** The paced dispatcher: how many uploads are attempted, who gets them, and how many run at once. */
module Dispatcher {

  import opened Collections
  import opened Modulo

  // ---------------------------------------------------------------- first eligible from a cursor

  /** Slot `k` steps on from `from`, around `n` slots. */
  function Around(from: nat, k: nat, n: nat): (slot: nat)
    requires n > 0
    ensures slot < n
  {
    (from + k) % n
  }

  ghost predicate FirstFrom(eligible: seq<bool>, from: nat, k: nat) {
    && k < |eligible| && eligible[Around(from, k, |eligible|)]
    && forall j: nat :: j < k ==> !eligible[Around(from, j, |eligible|)]
  }

  /** Going once around reaches every slot. */
  lemma Reached(from: nat, n: nat, slot: nat)
    requires slot < n
    ensures exists k: nat :: k < n && Around(from, k, n) == slot
  {
    var at := from % n;
    Parts(from, n);
    if at <= slot {
      AddModulo(from, slot - at, n);
      Divided(0, slot, n);
      assert Around(from, slot - at, n) == slot;
    } else {
      AddModulo(from, slot + n - at, n);
      Divided(1, slot, n);
      assert Around(from, slot + n - at, n) == slot;
    }
  }

  /** The next user who is not disabled, in order from the cursor, which moves past everyone looked
      at; none exactly when all are disabled. */
  method PickActiveUser(eligible: seq<bool>, cursor: nat) returns (user: Option<nat>, next: nat)
    ensures user.Some? <==> exists u :: 0 <= u < |eligible| && eligible[u]
    ensures user.Some? ==>
              && next > cursor && FirstFrom(eligible, cursor, next - cursor - 1)
              && user.value == Around(cursor, next - cursor - 1, |eligible|)
    ensures user.None? ==> next == cursor + |eligible|
  {
    next := cursor;
    for tries := 0 to |eligible|
      invariant next == cursor + tries
      invariant forall j: nat :: j < tries ==> !eligible[Around(cursor, j, |eligible|)]
    {
      var u := next % |eligible|;
      next := next + 1;
      if eligible[u] {
        assert Around(cursor, tries, |eligible|) == u;
        return Some(u), next;
      }
    }
    forall u | 0 <= u < |eligible| ensures !eligible[u] {
      Reached(cursor, |eligible|, u);
    }
    return None, next;
  }

  /** The user picked, as a function. */
  ghost function Pick(eligible: seq<bool>, cursor: nat): (k: Option<nat>)
    ensures k.Some? ==> k.value < |eligible| && FirstFrom(eligible, cursor, k.value)
    ensures k.None? ==> forall u :: 0 <= u < |eligible| ==> !eligible[u]
  {
    FirstExists(eligible, cursor, 0);
    if exists k: nat :: FirstFrom(eligible, cursor, k) then
      var k: nat :| FirstFrom(eligible, cursor, k);
      Some(k)
    else None
  }

  lemma {:induction false} FirstExists(eligible: seq<bool>, from: nat, tries: nat)
    requires tries <= |eligible| && forall j: nat :: j < tries ==> !eligible[Around(from, j, |eligible|)]
    ensures (exists k: nat :: FirstFrom(eligible, from, k)) || forall u :: 0 <= u < |eligible| ==> !eligible[u]
    decreases |eligible| - tries
  {
    if tries < |eligible| {
      if eligible[Around(from, tries, |eligible|)] {
        assert FirstFrom(eligible, from, tries);
      } else {
        FirstExists(eligible, from, tries + 1);
      }
    } else {
      forall u | 0 <= u < |eligible| ensures !eligible[u] {
        Reached(from, |eligible|, u);
      }
    }
  }

  // ---------------------------------------------------------------- connection pool

  /** One user's connection slots; `idx` is where the next call starts. */
  class ClientPool {
    const slots: nat
    var idx: nat

    ghost predicate Valid()
      reads this
    {
      slots > 0 ==> idx < slots
    }

    constructor (slots: nat)
      ensures Valid() && this.slots == slots && idx == 0
    {
      this.slots, idx := slots, 0;
    }

    /** The first reachable slot from the round-robin start, none exactly when all are unreachable; one
        dead slot never fails the call. */
    method Get(reachable: seq<bool>) returns (slot: Option<nat>)
      requires Valid() && |reachable| == slots
      modifies this
      ensures Valid()
      ensures slot.Some? <==> exists u :: 0 <= u < slots && reachable[u]
      ensures slot.Some? ==> exists k: nat :: FirstFrom(reachable, old(idx), k) && slot.value == Around(old(idx), k, slots)
      ensures slots > 0 ==> idx == (old(idx) + 1) % slots
    {
      if slots == 0 {
        return None;
      }
      var start := idx;
      idx := (idx + 1) % slots;
      for attempt := 0 to slots
        invariant forall j: nat :: j < attempt ==> !reachable[Around(start, j, slots)]
      {
        var at := (start + attempt) % slots;
        if reachable[at] {
          assert FirstFrom(reachable, start, attempt);
          return Some(at);
        }
      }
      forall u | 0 <= u < slots ensures !reachable[u] {
        Reached(start, slots, u);
      }
      return None;
    }
  }

  // ---------------------------------------------------------------- filename patterns

  /** How many of the first `calls` calls were given pattern `p` of `n`. Concurrent callers draw
      distinct numbers from the counter, so only how many calls there were matters. */
  function Served(calls: nat, n: nat, p: nat): nat
    requires p < n
  {
    if calls == 0 then 0 else Served(calls - 1, n, p) + if (calls - 1) % n == p then 1 else 0
  }

  lemma {:induction false} ServedExactly(calls: nat, n: nat, p: nat)
    requires p < n
    ensures Served(calls, n, p) == calls / n + if p < calls % n then 1 else 0
  {
    if calls > 0 {
      ServedExactly(calls - 1, n, p);
      NextQuotient(calls - 1, n);
    }
  }

  lemma NextQuotient(c: nat, n: nat)
    requires n > 0
    ensures if c % n == n - 1 then (c + 1) / n == c / n + 1 && (c + 1) % n == 0
            else (c + 1) / n == c / n && (c + 1) % n == c % n + 1
  {
    var q, r := c / n, c % n;
    Parts(c, n);
    if r == n - 1 {
      assert (q + 1) * n == q * n + n;
      Divided(q + 1, 0, n);
    } else {
      assert c + 1 == q * n + (r + 1);
      Divided(q, r + 1, n);
    }
  }

  /** Patterns are served evenly: after any number of calls no pattern leads another by more than one. */
  lemma PatternsServedEvenly(calls: nat, n: nat, p: nat, q: nat)
    requires p < n && q < n
    ensures Served(calls, n, p) <= Served(calls, n, q) + 1
  {
    ServedExactly(calls, n, p);
    ServedExactly(calls, n, q);
  }

  class PatternCursor {
    var next: nat

    constructor ()
      ensures next == 0
    {
      next := 0;
    }

    /** A user with one pattern does not touch the cursor. */
    method NextPattern(patterns: seq<string>) returns (pattern: string)
      requires |patterns| > 0
      modifies this
      ensures |patterns| == 1 ==> pattern == patterns[0] && next == old(next)
      ensures |patterns| > 1 ==> pattern == patterns[old(next) % |patterns|] && next == old(next) + 1
      ensures |patterns| > 1 ==>
                forall p :: 0 <= p < |patterns| ==>
                  Served(next, |patterns|, p)
                  == Served(old(next), |patterns|, p) + if p == old(next) % |patterns| then 1 else 0
    {
      if |patterns| == 1 {
        return patterns[0];
      }
      next := next + 1;
      var idx := next - 1;
      return patterns[idx % |patterns|];
    }
  }

  // ---------------------------------------------------------------- pacing

  const TICKS_PER_MINUTE := 1200

  datatype Ramp = Ramp(startFPM: nat, stepFPM: nat, stepEverySec: nat, ceilingFPM: nat)

  /** Files per minute after `elapsed` seconds; a zero ceiling means the configured rate, and a zero
      configured rate no ceiling at all. */
  function RampFPM(ramp: Ramp, filesPerMinute: nat, elapsed: nat): nat
    requires ramp.stepEverySec > 0
  {
    var fpm := ramp.startFPM + elapsed / ramp.stepEverySec * ramp.stepFPM;
    var ceiling := if ramp.ceilingFPM == 0 then filesPerMinute else ramp.ceilingFPM;
    if ceiling > 0 && fpm > ceiling then ceiling else fpm
  }

  /** Before the first step the rate is the start rate, and each step raises it by the step rate until the ceiling
      is met; within a step it does not change. */
  lemma RampSteps(ramp: Ramp, filesPerMinute: nat, elapsed: nat)
    requires ramp.stepEverySec > 0
    ensures var ceiling := if ramp.ceilingFPM == 0 then filesPerMinute else ramp.ceilingFPM;
            var now, later := RampFPM(ramp, filesPerMinute, elapsed), RampFPM(ramp, filesPerMinute, elapsed + ramp.stepEverySec);
            && (elapsed < ramp.stepEverySec ==> now == if 0 < ceiling < ramp.startFPM then ceiling else ramp.startFPM)
            && later == (if 0 < ceiling < now + ramp.stepFPM then ceiling else now + ramp.stepFPM)
    ensures RampFPM(ramp, filesPerMinute, elapsed)
            == RampFPM(ramp, filesPerMinute, elapsed / ramp.stepEverySec * ramp.stepEverySec)
  {
    var every := ramp.stepEverySec;
    var q, r := elapsed / every, elapsed % every;
    Parts(elapsed, every);
    assert (q + 1) * every == q * every + every;
    Divided(q + 1, r, every);
    Divided(q, 0, every);
    assert (q + 1) * ramp.stepFPM == q * ramp.stepFPM + ramp.stepFPM;
    if elapsed < every {
      Divided(0, elapsed, every);
    }
  }

  function PerTick(fpm: nat): real {
    fpm as real / TICKS_PER_MINUTE as real
  }

  lemma QuotientGrows(a: nat, b: nat, n: nat)
    requires a <= b && n > 0
    ensures a / n <= b / n
  {
    Parts(a, n);
    Parts(b, n);
    Above(b / n, a / n, n);
  }

  /** A ramp never slows down and never passes its ceiling. */
  lemma RampRises(ramp: Ramp, filesPerMinute: nat, early: nat, late: nat)
    requires ramp.stepEverySec > 0 && early <= late
    ensures RampFPM(ramp, filesPerMinute, early) <= RampFPM(ramp, filesPerMinute, late)
    ensures ramp.ceilingFPM > 0 ==> RampFPM(ramp, filesPerMinute, late) <= ramp.ceilingFPM
  {
    QuotientGrows(early, late, ramp.stepEverySec);
    Scaled(early / ramp.stepEverySec, late / ramp.stepEverySec, ramp.stepFPM);
  }

  /** Before each attempt: who is enabled, and how many uploads have finished since the last. */
  datatype Moment = Moment(eligible: seq<bool>, finished: nat)

  datatype Tick = Tick(quota: real, newMinute: bool, moments: seq<Moment>)

  /** One attempt as it went: whose turn it was, who was enabled then, whether it was the first of a minute, how many
      uploads had finished by then, and whether it became an upload. */
  datatype Turn = Turn(user: nat, eligible: seq<bool>, opens: bool, returned: nat, launched: bool)

  /** `opens`: nobody has been picked since the minute began. */
  datatype State = State(cursor: nat, carry: real, attempts: nat, launches: nat, skips: nat, inFlight: nat, stopped: bool,
                         opens: bool, turns: seq<Turn>, returned: nat)

  const INITIAL := State(0, 0.0, 0, 0, 0, 0, false, true, [], 0)

  function Finish(s: State, finished: nat): State {
    var back := if finished >= s.inFlight then s.inFlight else finished;
    s.(inFlight := s.inFlight - back, returned := s.returned + back)
  }

  /** One attempt: pick a user, then take a slot or count a skip. */
  ghost function Attempted(s: State, capacity: nat, m: Moment): State {
    var t, k := Finish(s, m.finished), Pick(m.eligible, s.cursor);
    if k.None? then t.(cursor := s.cursor + |m.eligible|, stopped := true)
    else
      var user, room := Around(s.cursor, k.value, |m.eligible|), t.inFlight < capacity;
      var u := t.(cursor := s.cursor + k.value + 1, attempts := s.attempts + 1,
                  opens := false, turns := s.turns + [Turn(user, m.eligible, s.opens, t.returned, room)]);
      if room then u.(inFlight := t.inFlight + 1, launches := s.launches + 1)
      else u.(skips := s.skips + 1)
  }

  ghost function Attempts(s: State, capacity: nat, moments: seq<Moment>, count: nat): State
    requires count <= |moments|
  {
    if count == 0 then s
    else
      var t := Attempts(s, capacity, moments, count - 1);
      if t.stopped then t else Attempted(t, capacity, moments[count - 1])
  }

  /** `tick.moments` is long enough for whatever the tick attempts. */
  ghost predicate Enough(s: State, tick: Tick) {
    tick.quota >= 0.0 && 0 <= (s.carry + tick.quota).Floor <= |tick.moments|
  }

  ghost function Ticked(s: State, capacity: nat, tick: Tick): State {
    if s.stopped || !Enough(s, tick) then s
    else
      var total := s.carry + tick.quota;
      Attempts(Begun(s, tick), capacity, tick.moments, total.Floor)
  }

  /** The state when a tick has taken its quota and, at a new minute, reset the cursor. */
  function Begun(s: State, tick: Tick): State {
    var total := s.carry + tick.quota;
    s.(cursor := if tick.newMinute then 0 else s.cursor, opens := tick.newMinute || s.opens,
       carry := total - total.Floor as real)
  }

  ghost function Run(capacity: nat, ticks: seq<Tick>): State {
    if ticks == [] then INITIAL else Ticked(Run(capacity, ticks[..|ticks| - 1]), capacity, ticks[|ticks| - 1])
  }

  ghost predicate Fed(capacity: nat, ticks: seq<Tick>) {
    ticks != [] ==>
      Fed(capacity, ticks[..|ticks| - 1]) && Enough(Run(capacity, ticks[..|ticks| - 1]), ticks[|ticks| - 1])
  }

  function Sum(ticks: seq<Tick>): real {
    if ticks == [] then 0.0 else Sum(ticks[..|ticks| - 1]) + ticks[|ticks| - 1].quota
  }

  ghost predicate Accounted(s: State, capacity: nat) {
    s.launches + s.skips == s.attempts && s.inFlight <= capacity && s.inFlight + s.returned == s.launches
  }

  lemma {:induction false} AttemptsCount(s: State, capacity: nat, moments: seq<Moment>, count: nat)
    requires count <= |moments| && Accounted(s, capacity) && !s.stopped
    ensures var t := Attempts(s, capacity, moments, count);
            && Accounted(t, capacity) && t.carry == s.carry
            && (!t.stopped ==> t.attempts == s.attempts + count)
  {
    if count > 0 {
      AttemptsCount(s, capacity, moments, count - 1);
    }
  }

  /** At every moment of every run: an attempt either launched or was counted as skipped, what was launched and has
      not finished is in flight, and no more than there are slots. Until it stops, the attempts so far are the floor
      of the summed quotas, whatever the quotas were: nothing is lost to rounding while ramping. */
  lemma {:induction false} AttemptsFollowTheQuotas(capacity: nat, ticks: seq<Tick>)
    requires Fed(capacity, ticks)
    ensures var s := Run(capacity, ticks);
            && Accounted(s, capacity)
            && (!s.stopped ==> s.attempts == Sum(ticks).Floor && s.carry == Sum(ticks) - s.attempts as real)
  {
    hide Attempts;
    if ticks != [] {
      var init, tick := ticks[..|ticks| - 1], ticks[|ticks| - 1];
      var s := Run(capacity, init);
      AttemptsFollowTheQuotas(capacity, init);
      if !s.stopped {
        var total := s.carry + tick.quota;
        AttemptsCount(Begun(s, tick), capacity, tick.moments, total.Floor);
      }
    }
  }

  // ---------------------------------------------------------------- whose turn it is

  /** Turn `i`, of `n` users, is that of the first enabled user after the one before, or from user 0 when a minute began. */
  ghost predicate InTurn(turns: seq<Turn>, i: nat, n: nat)
    requires i < |turns|
  {
    |turns[i].eligible| == n && DueFrom(turns[i], if i == 0 || turns[i].opens then 0 else turns[i - 1].user + 1)
  }

  /** The user is the first enabled one from `from` on, going around. */
  ghost predicate DueFrom(turn: Turn, from: nat) {
    exists k: nat :: FirstFrom(turn.eligible, from, k) && turn.user == Around(from, k, |turn.eligible|)
  }

  ghost predicate UsersAre(moments: seq<Moment>, n: nat) {
    forall i :: 0 <= i < |moments| ==> |moments[i].eligible| == n
  }

  /** All turns so far were due, and the cursor stands behind the last one of this minute. */
  ghost predicate Turning(s: State, n: nat) {
    && |s.turns| == s.attempts && (s.turns == [] ==> s.opens)
    && (forall i :: 0 <= i < |s.turns| ==> InTurn(s.turns, i, n))
    && (n > 0 ==> s.cursor % n == Origin(s) % n)
  }

  lemma SameAround(c: nat, d: nat, j: nat, n: nat)
    requires n > 0 && c % n == d % n
    ensures Around(c, j, n) == Around(d, j, n)
  {
    AddModulo(c, j, n);
    AddModulo(d, j, n);
  }

  lemma SameFirst(eligible: seq<bool>, c: nat, d: nat, k: nat)
    requires |eligible| > 0 && c % |eligible| == d % |eligible| && FirstFrom(eligible, c, k)
    ensures FirstFrom(eligible, d, k)
  {
    forall j: nat ensures Around(c, j, |eligible|) == Around(d, j, |eligible|) {
      SameAround(c, d, j, |eligible|);
    }
  }

  /** Where the next turn is looked for, in terms of the turns so far. */
  function Origin(s: State): nat {
    if s.turns == [] || s.opens then 0 else s.turns[|s.turns| - 1].user + 1
  }

  lemma AttemptTurns(s: State, capacity: nat, m: Moment, n: nat)
    requires Turning(s, n) && |m.eligible| == n
    ensures Turning(Attempted(s, capacity, m), n)
  {
    hide FirstFrom, InTurn, Around;
    var k := Pick(m.eligible, s.cursor);
    if k.Some? {
      var t := Finish(s, m.finished);
      EarlierTurns(s.turns, Turn(Around(s.cursor, k.value, n), m.eligible, s.opens, t.returned, t.inFlight < capacity), n);
      NextTurn(s, m, k.value, Turn(Around(s.cursor, k.value, n), m.eligible, s.opens, t.returned, t.inFlight < capacity));
    } else if n > 0 {
      Wrap(s.cursor, n);
    }
  }

  lemma NextTurn(s: State, m: Moment, k: nat, turn: Turn)
    requires Turning(s, |m.eligible|) && FirstFrom(m.eligible, s.cursor, k)
    requires turn.user == Around(s.cursor, k, |m.eligible|) && turn.eligible == m.eligible && turn.opens == s.opens
    ensures (s.cursor + k + 1) % |m.eligible| == (turn.user + 1) % |m.eligible|
    ensures InTurn(s.turns + [turn], |s.turns|, |m.eligible|)
  {
    var n, from := |m.eligible|, Origin(s);
    SomeUser(m.eligible, s.cursor, k);
    CursorAtOrigin(s, n);
    hide FirstFrom, Around, Turning, InTurn;
    SameFirst(m.eligible, s.cursor, from, k);
    SameAround(s.cursor, from, k, n);
    OneFurther(s.cursor, k, n);
    AroundMeans(s.cursor, k + 1, n);
    assert DueFrom(turn, from);
    LastInTurn(s.turns, turn);
  }

  lemma SomeUser(eligible: seq<bool>, from: nat, k: nat)
    requires FirstFrom(eligible, from, k)
    ensures |eligible| > 0
  {
  }

  lemma CursorAtOrigin(s: State, n: nat)
    requires Turning(s, n) && n > 0
    ensures s.cursor % n == Origin(s) % n
  {
  }

  lemma AroundMeans(from: nat, k: nat, n: nat)
    requires n > 0
    ensures Around(from, k, n) == (from + k) % n
  {
  }

  lemma LastInTurn(turns: seq<Turn>, turn: Turn)
    requires DueFrom(turn, if turns == [] || turn.opens then 0 else turns[|turns| - 1].user + 1)
    ensures InTurn(turns + [turn], |turns|, |turn.eligible|)
  {
  }

  lemma EarlierTurns(turns: seq<Turn>, turn: Turn, n: nat)
    requires forall i :: 0 <= i < |turns| ==> InTurn(turns, i, n)
    ensures forall i :: 0 <= i < |turns| ==> InTurn(turns + [turn], i, n)
  {
    hide DueFrom;
    forall i | 0 <= i < |turns| ensures InTurn(turns + [turn], i, n) {
      assert InTurn(turns, i, n);
      assert (turns + [turn])[i] == turns[i] && (i > 0 ==> (turns + [turn])[i - 1] == turns[i - 1]);
    }
  }

  lemma {:induction false} AttemptsTurn(s: State, capacity: nat, moments: seq<Moment>, count: nat, n: nat)
    requires count <= |moments| && Turning(s, n) && UsersAre(moments, n)
    ensures Turning(Attempts(s, capacity, moments, count), n)
  {
    hide Attempted, Turning;
    if count > 0 {
      AttemptsTurn(s, capacity, moments, count - 1, n);
      var t := Attempts(s, capacity, moments, count - 1);
      if !t.stopped {
        AttemptTurns(t, capacity, moments[count - 1], n);
      }
    }
  }

  /** Every attempt of every run goes to the first enabled user after the one served last, or from the first user
      on when a new minute has begun. */
  lemma {:induction false} RoundRobin(capacity: nat, ticks: seq<Tick>, n: nat)
    requires forall i :: 0 <= i < |ticks| ==> UsersAre(ticks[i].moments, n)
    ensures Turning(Run(capacity, ticks), n)
  {
    if ticks != [] {
      var init, tick := ticks[..|ticks| - 1], ticks[|ticks| - 1];
      RoundRobin(capacity, init, n);
      var s := Run(capacity, init);
      if !s.stopped && Enough(s, tick) {
        assert Turning(Begun(s, tick), n);
        AttemptsTurn(Begun(s, tick), capacity, tick.moments, (s.carry + tick.quota).Floor, n);
      }
    }
  }

  function Launched(turns: seq<Turn>): nat {
    if turns == [] then 0 else Launched(turns[..|turns| - 1]) + if turns[|turns| - 1].launched then 1 else 0
  }

  /** Turn `i` became an upload exactly when there was a slot: fewer than `capacity` were launched and not back. */
  ghost predicate SlotDecides(turns: seq<Turn>, i: nat, capacity: nat)
    requires i < |turns|
  {
    turns[i].launched <==> Launched(turns[..i]) < turns[i].returned + capacity
  }

  ghost predicate Launching(s: State, capacity: nat) {
    && s.launches == Launched(s.turns) && s.inFlight + s.returned == s.launches
    && forall i :: 0 <= i < |s.turns| ==> SlotDecides(s.turns, i, capacity)
  }

  lemma AttemptLaunches(s: State, capacity: nat, m: Moment)
    requires Launching(s, capacity)
    ensures Launching(Attempted(s, capacity, m), capacity)
  {
    hide Around, FirstFrom, Pick;
    var t := Attempted(s, capacity, m);
    forall i | 0 <= i < |t.turns| ensures SlotDecides(t.turns, i, capacity) {
      assert t.turns[..|s.turns|] == s.turns;
      if i < |s.turns| {
        assert SlotDecides(s.turns, i, capacity);
        assert t.turns[..i] == s.turns[..i];
      }
    }
  }

  lemma {:induction false} AttemptsLaunch(s: State, capacity: nat, moments: seq<Moment>, count: nat)
    requires count <= |moments| && Launching(s, capacity)
    ensures Launching(Attempts(s, capacity, moments, count), capacity)
  {
    hide Attempted, Launching;
    if count > 0 {
      AttemptsLaunch(s, capacity, moments, count - 1);
      var t := Attempts(s, capacity, moments, count - 1);
      if !t.stopped {
        AttemptLaunches(t, capacity, moments[count - 1]);
      }
    }
  }

  /** In every run an attempt becomes an upload exactly when a slot is free for it. */
  lemma {:induction false} SlotsDecide(capacity: nat, ticks: seq<Tick>)
    ensures Launching(Run(capacity, ticks), capacity)
  {
    hide Attempts, SlotDecides;
    if ticks != [] {
      var init, tick := ticks[..|ticks| - 1], ticks[|ticks| - 1];
      SlotsDecide(capacity, init);
      var s := Run(capacity, init);
      if !s.stopped && Enough(s, tick) {
        AttemptsLaunch(Begun(s, tick), capacity, tick.moments, (s.carry + tick.quota).Floor);
      }
    }
  }

  function TurnsOf(turns: seq<Turn>, user: nat): nat {
    if turns == [] then 0
    else TurnsOf(turns[..|turns| - 1], user) + if turns[|turns| - 1].user == user then 1 else 0
  }

  predicate AllEnabled(eligible: seq<bool>) {
    forall u :: 0 <= u < |eligible| ==> eligible[u]
  }

  /** Consecutive turns of `n` users, all enabled, with no minute beginning after the first of them. */
  ghost predicate Stretch(turns: seq<Turn>, a: nat, b: nat, n: nat) {
    && a < b <= |turns| && n > 0
    && (forall i :: 0 <= i < |turns| ==> InTurn(turns, i, n))
    && (forall i :: a <= i < b ==> AllEnabled(turns[i].eligible))
    && (forall i :: a < i < b ==> !turns[i].opens)
  }

  /** With everyone enabled the turns go around in order. */
  lemma {:induction false} AroundInOrder(turns: seq<Turn>, a: nat, b: nat, n: nat)
    requires Stretch(turns, a, b, n)
    ensures turns[a].user < n && turns[b - 1].user == Around(turns[a].user, b - 1 - a, n)
    ensures turns[a].opens ==> turns[a].user == 0
    decreases b
  {
    hide InTurn, Around;
    FirstIsNext(turns, a, n);
    if a + 1 < b {
      AroundInOrder(turns, a, b - 1, n);
      FirstIsNext(turns, b - 1, n);
      OneFurther(turns[a].user, b - 2 - a, n);
    } else {
      AroundNone(turns[a].user, n);
      Divided(0, 0, n);
    }
  }

  lemma OneFurther(from: nat, k: nat, n: nat)
    requires n > 0
    ensures (Around(from, k, n) + 1) % n == Around(from, k + 1, n)
  {
    AddModulo(from + k, 1, n);
  }

  lemma AroundNone(user: nat, n: nat)
    requires user < n
    ensures Around(user, 0, n) == user
  {
    Divided(0, user, n);
  }

  lemma FirstIsNext(turns: seq<Turn>, i: nat, n: nat)
    requires i < |turns| && n > 0 && InTurn(turns, i, n)
    requires AllEnabled(turns[i].eligible)
    ensures turns[i].user == (if i == 0 || turns[i].opens then 0 else turns[i - 1].user + 1) % n
    ensures turns[i].user < n
  {
    var from := if i == 0 || turns[i].opens then 0 else turns[i - 1].user + 1;
    var k: nat :| FirstFrom(turns[i].eligible, from, k) && turns[i].user == Around(from, k, n);
    EveryoneFirst(turns[i].eligible, from, k);
  }

  lemma EveryoneFirst(eligible: seq<bool>, from: nat, k: nat)
    requires FirstFrom(eligible, from, k) && AllEnabled(eligible)
    ensures k == 0
  {
    assert eligible[Around(from, 0, |eligible|)];
  }

  /** How often `user` had its turn in a stretch, counted on the round it is part of. */
  lemma {:induction false} TurnsInStretch(turns: seq<Turn>, a: nat, b: nat, n: nat, user: nat)
    requires Stretch(turns, a, b, n) && user < n
    ensures turns[a].user < n
    ensures TurnsOf(turns[a..b], user) == Served(turns[a].user + (b - a), n, user) - Served(turns[a].user, n, user)
    decreases b
  {
    AroundInOrder(turns, a, b, n);
    OneTurnMore(turns, a, b, user);
    OneCallMore(turns[a].user + (b - 1 - a), n, user);
    hide InTurn, TurnsOf, Served;
    if a + 1 < b {
      TurnsInStretch(turns, a, b - 1, n, user);
    } else {
      assert turns[a..a] == [];
      NoTurns(user);
    }
  }

  lemma NoTurns(user: nat)
    ensures TurnsOf([], user) == 0
  {
  }

  lemma OneTurnMore(turns: seq<Turn>, a: nat, b: nat, user: nat)
    requires a < b <= |turns|
    ensures TurnsOf(turns[a..b], user) == TurnsOf(turns[a..b - 1], user) + if turns[b - 1].user == user then 1 else 0
  {
    assert turns[a..b][..b - a - 1] == turns[a..b - 1];
  }

  lemma OneCallMore(calls: nat, n: nat, user: nat)
    requires user < n
    ensures Served(calls + 1, n, user) == Served(calls, n, user) + if Around(calls, 0, n) == user then 1 else 0
  {
  }

  /** While everyone is enabled and no minute begins, nobody is served more than once more than another. */
  lemma EvenTurns(turns: seq<Turn>, a: nat, b: nat, n: nat, p: nat, q: nat)
    requires Stretch(turns, a, b, n) && p < n && q < n
    ensures TurnsOf(turns[a..b], p) <= TurnsOf(turns[a..b], q) + 1
  {
    TurnsInStretch(turns, a, b, n, p);
    TurnsInStretch(turns, a, b, n, q);
    var u, v := turns[a].user, turns[a].user + (b - a);
    ServedExactly(u, n, p);
    ServedExactly(u, n, q);
    ServedExactly(v, n, p);
    ServedExactly(v, n, q);
  }

  /** Since each minute begins with the first user, a user gets its share of each minute's attempts counted from
      there, and none at all when its number is not below the number of attempts in the minute. */
  lemma MinuteShare(turns: seq<Turn>, a: nat, b: nat, n: nat, user: nat)
    requires Stretch(turns, a, b, n) && user < n && turns[a].opens
    ensures TurnsOf(turns[a..b], user) == (b - a) / n + if user < (b - a) % n then 1 else 0
    ensures TurnsOf(turns[a..b], user) == 0 <==> user >= b - a
  {
    TurnsInStretch(turns, a, b, n, user);
    AroundInOrder(turns, a, b, n);
    ServedExactly(b - a, n, user);
    Parts(b - a, n);
    if b - a < n {
      Divided(0, b - a, n);
    } else {
      assert (b - a) / n >= 1 by { QuotientGrows(n, b - a, n); Divided(1, 0, n); }
    }
  }

  lemma PickIsFirst(eligible: seq<bool>, cursor: nat, k: nat)
    requires FirstFrom(eligible, cursor, k)
    ensures Pick(eligible, cursor) == Some(k)
  {
  }

  lemma Picked(s: State, capacity: nat, m: Moment, k: nat)
    requires FirstFrom(m.eligible, s.cursor, k)
    ensures var t := Finish(s, m.finished);
            var room := t.inFlight < capacity;
            Attempted(s, capacity, m)
            == State(s.cursor + k + 1, s.carry, s.attempts + 1, s.launches + if room then 1 else 0,
                     s.skips + if room then 0 else 1, t.inFlight + if room then 1 else 0, s.stopped, false,
                     s.turns + [Turn(Around(s.cursor, k, |m.eligible|), m.eligible, s.opens, t.returned, room)], t.returned)
  {
    PickIsFirst(m.eligible, s.cursor, k);
  }

  /** The dispatcher of normal-sized files. `sem` counts the taken slots; the rate is `filesPerMinute`, or that of
      the ramp if there is one that starts above zero. */
  class NormalDispatcher {
    const capacity: nat
    const filesPerMinute: nat
    const ramp: Option<Ramp>
    var fpm: nat
    var perTick: real
    var cursor: nat
    var accumulator: real
    var launches: nat
    var skips: nat
    var sem: nat
    var stopped: bool
    ghost var attempts: nat
    ghost var opens: bool
    ghost var turns: seq<Turn>
    ghost var returned: nat

    ghost predicate Valid()
      reads this
    {
      perTick == PerTick(fpm) && (ramp.Some? ==> ramp.value.stepEverySec > 0)
    }

    ghost function View(): State
      reads this
    {
      State(cursor, accumulator, attempts, launches, skips, sem, stopped, opens, turns, returned)
    }

    function RateAt(elapsed: nat): nat
      requires ramp.Some? ==> ramp.value.stepEverySec > 0
    {
      if ramp.Some? && ramp.value.startFPM > 0 then RampFPM(ramp.value, filesPerMinute, elapsed) else filesPerMinute
    }

    constructor (users: nat, streams: nat, filesPerMinute: nat, ramp: Option<Ramp>)
      requires ramp.Some? ==> ramp.value.stepEverySec > 0
      ensures Valid() && View() == INITIAL && capacity == users * streams
      ensures this.filesPerMinute == filesPerMinute && this.ramp == ramp
    {
      capacity, this.filesPerMinute, this.ramp := users * streams, filesPerMinute, ramp;
      fpm := if ramp.Some? && ramp.value.startFPM > 0 then ramp.value.startFPM else filesPerMinute;
      cursor, accumulator, launches, skips, sem, stopped := 0, 0.0, 0, 0, 0, false;
      attempts, opens, turns, returned := 0, true, [], 0;
      new;
      perTick := PerTick(fpm);
    }

    /** What a tick does first: the quota follows the ramp. */
    method Pace(elapsed: nat)
      requires Valid() && (ramp.None? || ramp.value.startFPM == 0 ==> fpm == filesPerMinute)
      modifies this`fpm, this`perTick
      ensures Valid() && fpm == RateAt(elapsed)
    {
      if ramp.Some? && ramp.value.startFPM > 0 {
        var steps := elapsed / ramp.value.stepEverySec;
        var newFPM := ramp.value.startFPM + steps * ramp.value.stepFPM;
        var ceiling := ramp.value.ceilingFPM;
        if ceiling == 0 {
          ceiling := filesPerMinute;
        }
        if ceiling > 0 && newFPM > ceiling {
          newFPM := ceiling;
        }
        if newFPM != fpm {
          perTick := PerTick(newFPM);
          fpm := newFPM;
        }
      }
    }

    /** Pick a user; with nobody left the run stops, with no slot free a skip is counted. */
    method Attempt(m: Moment) returns (user: Option<nat>)
      modifies this`cursor, this`sem, this`launches, this`skips, this`stopped, this`attempts, this`opens, this`turns, this`returned
      ensures View() == Attempted(old(View()), capacity, m)
      ensures user.None? ==> stopped && turns == old(turns)
      ensures user.Some? ==> |turns| == |old(turns)| + 1 && turns[|old(turns)|].user == user.value
    {
      hide FirstFrom, Around, Pick, Attempted;
      ghost var was := View();
      var next;
      user, next := PickActiveUser(m.eligible, cursor);
      var back := if m.finished >= sem then sem else m.finished;
      sem, returned, cursor := sem - back, returned + back, next;
      if user.None? {
        NobodyToPick(was, capacity, m);
        stopped := true;
        return;
      }
      Picked(was, capacity, m, next - was.cursor - 1);
      attempts, opens, turns := attempts + 1, false, turns + [Turn(user.value, m.eligible, opens, returned, sem < capacity)];
      if sem < capacity {
        sem, launches := sem + 1, launches + 1;
      } else {
        skips := skips + 1;
      }
    }

    method OnTick(tick: Tick)
      requires !stopped && Enough(View(), tick) && tick.quota == perTick
      modifies this`cursor, this`accumulator, this`sem, this`launches, this`skips, this`stopped,
               this`attempts, this`opens, this`turns, this`returned
      ensures View() == Ticked(old(View()), capacity, tick)
    {
      hide Attempted, FirstFrom;
      if tick.newMinute {
        cursor, opens := 0, true;
      }
      accumulator := accumulator + perTick;
      var count := accumulator.Floor;
      accumulator := accumulator - count as real;
      ghost var start := View();
      for j := 0 to count
        invariant !stopped && View() == Attempts(start, capacity, tick.moments, j)
      {
        var _ := Attempt(tick.moments[j]);
        if stopped {
          AttemptsStop(start, capacity, tick.moments, j + 1, count);
          return;
        }
      }
    }
  }

  lemma NobodyToPick(s: State, capacity: nat, m: Moment)
    requires forall u :: 0 <= u < |m.eligible| ==> !m.eligible[u]
    ensures Attempted(s, capacity, m) == Finish(s, m.finished).(cursor := s.cursor + |m.eligible|, stopped := true)
  {
  }

  lemma {:induction false} AttemptsStop(s: State, capacity: nat, moments: seq<Moment>, j: nat, count: nat)
    requires j <= count <= |moments| && Attempts(s, capacity, moments, j).stopped
    ensures Attempts(s, capacity, moments, count) == Attempts(s, capacity, moments, j)
  {
    if j < count {
      AttemptsStop(s, capacity, moments, j, count - 1);
    }
  }

  ghost predicate AtMost(ticks: seq<Tick>, fpm: nat) {
    forall i :: 0 <= i < |ticks| ==> ticks[i].quota <= PerTick(fpm)
  }

  ghost predicate Steady(ticks: seq<Tick>, fpm: nat) {
    forall i :: 0 <= i < |ticks| ==> ticks[i].quota == PerTick(fpm)
  }

  lemma {:induction false} SumBound(ticks: seq<Tick>, fpm: nat)
    ensures AtMost(ticks, fpm) ==> Sum(ticks) <= (|ticks| * fpm) as real / 1200.0
    ensures Steady(ticks, fpm) ==> Sum(ticks) == (|ticks| * fpm) as real / 1200.0
  {
    if ticks != [] {
      SumBound(ticks[..|ticks| - 1], fpm);
      assert |ticks| * fpm == (|ticks| - 1) * fpm + fpm;
    }
  }

  /** A run never attempts more than its highest rate allows, and a steady rate is met exactly at
      every whole minute. */
  lemma RateIsMet(capacity: nat, ticks: seq<Tick>, fpm: nat, minutes: nat)
    requires Fed(capacity, ticks) && !Run(capacity, ticks).stopped
    ensures AtMost(ticks, fpm) ==> Run(capacity, ticks).attempts * 1200 <= |ticks| * fpm
    ensures Steady(ticks, fpm) && |ticks| == TICKS_PER_MINUTE * minutes ==> Run(capacity, ticks).attempts == minutes * fpm
  {
    hide Run;
    AttemptsFollowTheQuotas(capacity, ticks);
    SumBound(ticks, fpm);
    var attempts := Run(capacity, ticks).attempts;
    assert attempts as real <= Sum(ticks);
    if |ticks| == TICKS_PER_MINUTE * minutes {
      assert |ticks| * fpm == 1200 * (minutes * fpm);
    }
  }
}
