/** Retiring users after repeated account-level failures, under concurrent uploads, and the reason a
    run stops. */
module DisablePolicy {

  import opened Collections

  /** Only these two codes speak of the account or the runtime rather than of the server's load. */
  predicate AccountLevel(code: string) {
    code == "POOL_EMPTY" || code == "PANIC"
  }

  // ---------------------------------------------------------------- one call at a time

  /** Times are 0 until set. */
  datatype Status = Status(consecutive: nat, totalFailed: nat, disabled: bool, disabledAt: int, lastAt: int,
                           lastCode: Option<string>, lastFile: Option<string>)

  const FRESH := Status(0, 0, false, 0, 0, None, None)

  function Trips(s: Status, threshold: nat, code: string): bool {
    AccountLevel(code) && threshold > 0 && s.consecutive + 1 >= threshold && !s.disabled
  }

  /** The clock is read once for the failure and, if it disables, once more. */
  function AfterFailure(s: Status, threshold: nat, code: string, basename: string, now: int, then_: int): Status {
    Status(if AccountLevel(code) then s.consecutive + 1 else s.consecutive, s.totalFailed + 1,
           s.disabled || Trips(s, threshold, code), if Trips(s, threshold, code) then then_ else s.disabledAt, now,
           Some(code), if basename != "" then Some(basename) else s.lastFile)
  }

  datatype Kind = Upload | Download

  class Policy {
    const threshold: nat
    var up: map<string, Status>
    var dl: map<string, Status>

    constructor (limit: int, upload: seq<string>, large: seq<string>, download: seq<string>)
      ensures threshold == if limit < 0 then 0 else limit
      ensures forall u :: u in up <==> u in upload || u in large
      ensures forall u :: u in dl <==> u in download
      ensures (forall u :: u in up ==> up[u] == FRESH) && forall u :: u in dl ==> dl[u] == FRESH
    {
      threshold := if limit < 0 then 0 else limit;
      up := map u | u in upload + large :: FRESH;
      dl := map u | u in download :: FRESH;
    }

    function Get(user: string, kind: Kind): Option<Status>
      reads this
    {
      var m := if kind.Download? then dl else up;
      if user in m then Some(m[user]) else None
    }

    method Put(user: string, kind: Kind, s: Status)
      requires Get(user, kind).Some?
      modifies this`up, this`dl
      ensures up == if kind.Upload? then old(up)[user := s] else old(up)
      ensures dl == if kind.Download? then old(dl)[user := s] else old(dl)
    {
      if kind.Download? {
        dl := dl[user := s];
      } else {
        up := up[user := s];
      }
    }

    method OnSuccess(user: string, kind: Kind)
      modifies this`up, this`dl
      ensures Get(user, kind)
              == (if old(Get(user, kind)).Some? then Some(old(Get(user, kind)).value.(consecutive := 0)) else None)
      ensures forall u, k :: (u, k) != (user, kind) ==> Get(u, k) == old(Get(u, k))
    {
      var s := Get(user, kind);
      if s.Some? {
        Put(user, kind, s.value.(consecutive := 0));
      }
    }

    /** True exactly for the failure that disables the user; an unknown user is ignored. */
    method OnFailureFor(user: string, kind: Kind, code: string, basename: string, now: int, then_: int)
      returns (tripped: bool)
      modifies this`up, this`dl
      ensures var before := old(Get(user, kind));
              && tripped == (before.Some? && Trips(before.value, threshold, code))
              && Get(user, kind) == if before.Some? then Some(AfterFailure(before.value, threshold, code, basename, now, then_)) else None
      ensures forall u, k :: (u, k) != (user, kind) ==> Get(u, k) == old(Get(u, k))
    {
      var found := Get(user, kind);
      if found.None? {
        return false;
      }
      var s := found.value;
      s := s.(totalFailed := s.totalFailed + 1, lastAt := now, lastCode := Some(code));
      if basename != "" {
        s := s.(lastFile := Some(basename));
      }
      tripped := false;
      if AccountLevel(code) {
        s := s.(consecutive := s.consecutive + 1);
        if threshold > 0 && s.consecutive >= threshold && !s.disabled {
          s := s.(disabled := true, disabledAt := then_);
          tripped := true;
        }
      }
      Put(user, kind, s);
    }
  }

  // ---------------------------------------------------------------- a user's calls in turn

  datatype Call = Failed(code: string, basename: string, now: int, then_: int) | Succeeded

  function After(threshold: nat, calls: seq<Call>): Status {
    if calls == [] then FRESH
    else
      var s := After(threshold, calls[..|calls| - 1]);
      match calls[|calls| - 1]
      case Failed(code, basename, now, then_) => AfterFailure(s, threshold, code, basename, now, then_)
      case Succeeded => s.(consecutive := 0)
  }

  predicate Counts(c: Call) {
    c.Failed? && c.code in {"POOL_EMPTY", "PANIC"}
  }

  /** The calls that count since the last success. */
  function InARow(calls: seq<Call>): nat {
    if calls == [] || calls[|calls| - 1].Succeeded? then 0
    else InARow(calls[..|calls| - 1]) + if Counts(calls[|calls| - 1]) then 1 else 0
  }

  function Failures(calls: seq<Call>): nat {
    if calls == [] then 0 else Failures(calls[..|calls| - 1]) + if calls[|calls| - 1].Failed? then 1 else 0
  }

  /** The call that completes the first row of `threshold` counting failures. */
  function Tripping(threshold: nat, calls: seq<Call>): Option<Call> {
    if calls == [] then None
    else
      var t := Tripping(threshold, calls[..|calls| - 1]);
      if t.Some? then t
      else if Counts(calls[|calls| - 1]) && 0 < threshold <= InARow(calls) then Some(calls[|calls| - 1]) else None
  }

  ghost predicate IsLastFailure(calls: seq<Call>, i: int) {
    0 <= i < |calls| && calls[i].Failed? && forall j :: i < j < |calls| ==> calls[j].Succeeded?
  }

  ghost predicate IsLastNamed(calls: seq<Call>, i: int) {
    0 <= i < |calls| && calls[i].Failed? && calls[i].basename != ""
    && forall j :: i < j < |calls| ==> calls[j].Succeeded? || calls[j].basename == ""
  }

  /** What a user's status shows after any calls, one at a time: every failure counted, the last failure's code and
      time, the last file that was named, and disabled, since when, by the first full row. */
  lemma {:induction false} StatusTells(threshold: nat, calls: seq<Call>)
    ensures var s, t := After(threshold, calls), Tripping(threshold, calls);
            && s.totalFailed == Failures(calls) && s.consecutive == InARow(calls)
            && s.disabled == t.Some? && s.disabledAt == (if t.Some? && t.value.Failed? then t.value.then_ else 0)
            && (forall i :: IsLastFailure(calls, i) ==> s.lastCode == Some(calls[i].code) && s.lastAt == calls[i].now)
            && (forall i :: IsLastNamed(calls, i) ==> s.lastFile == Some(calls[i].basename))
  {
    if calls != [] {
      var init, last := calls[..|calls| - 1], calls[|calls| - 1];
      StatusTells(threshold, init);
      TripsOnCall(threshold, init);
      forall i | IsLastFailure(calls, i) && i < |init| ensures IsLastFailure(init, i) {
      }
      forall i | IsLastNamed(calls, i) && i < |init| ensures IsLastNamed(init, i) {
      }
    }
  }

  lemma {:induction false} TripsOnCall(threshold: nat, calls: seq<Call>)
    ensures Tripping(threshold, calls).Some? ==> Tripping(threshold, calls).value.Failed?
  {
    if calls != [] {
      TripsOnCall(threshold, calls[..|calls| - 1]);
    }
  }

  // ---------------------------------------------------------------- any interleaving

  datatype Event = Failure | Success

  /** One user's counter and flag. `log` is what reached the counter, in order; `inFlight` maps a
      call (by the position of its increment) to the count it read; `tripped` are the calls that
      returned true. */
  datatype Shared = Shared(consecutive: nat, disabled: bool, log: seq<Event>, inFlight: map<nat, nat>, tripped: seq<nat>)

  /** A failing call increments and later decides; a succeeding one resets the counter. */
  datatype Step = Fail(code: string) | Decide(call: nat) | Succeed

  const START := Shared(0, false, [], map[], [])

  function TakeStep(s: Shared, threshold: nat, step: Step): Shared {
    match step
    case Fail(code) =>
      if AccountLevel(code) then
        s.(consecutive := s.consecutive + 1, log := s.log + [Failure],
           inFlight := s.inFlight[|s.log| := s.consecutive + 1])
      else s
    case Decide(call) =>
      if call !in s.inFlight then s
      else
        var n, t := s.inFlight[call], s.(inFlight := s.inFlight - {call});
        if threshold > 0 && n >= threshold && !s.disabled then
          t.(disabled := true, tripped := s.tripped + [call])
        else t
    case Succeed => s.(consecutive := 0, log := s.log + [Success])
  }

  function Run(threshold: nat, steps: seq<Step>): Shared {
    if steps == [] then START else TakeStep(Run(threshold, steps[..|steps| - 1]), threshold, steps[|steps| - 1])
  }

  /** The failures since the last success. */
  function Streak(log: seq<Event>): nat {
    if log == [] || log[|log| - 1] == Success then 0 else Streak(log[..|log| - 1]) + 1
  }

  /** `threshold` account-level failures in a row, the last at `p`, with no success between. */
  ghost predicate Window(log: seq<Event>, threshold: nat, p: nat) {
    && 0 < threshold <= p + 1 <= |log|
    && forall q :: p + 1 - threshold <= q <= p ==> log[q] == Failure
  }

  lemma {:induction false} StreakIsWindow(log: seq<Event>, threshold: nat, p: nat)
    requires p < |log| && threshold > 0
    ensures Streak(log[..p + 1]) >= threshold <==> Window(log, threshold, p)
  {
    var prefix := log[..p + 1];
    assert prefix[..p] == log[..p];
    if log[p] == Failure {
      if p > 0 && threshold > 1 {
        StreakIsWindow(log, threshold - 1, p - 1);
        assert Window(log, threshold, p) ==> Window(log, threshold - 1, p - 1);
      } else if p == 0 {
        assert Streak(log[..0]) == 0;
      }
    }
  }

  ghost predicate CallsKnown(s: Shared) {
    && s.consecutive == Streak(s.log)
    && forall p :: p in s.inFlight ==> p < |s.log| && s.log[p] == Failure && s.inFlight[p] == Streak(s.log[..p + 1])
  }

  ghost predicate TripsKnown(s: Shared, threshold: nat) {
    && |s.tripped| == (if s.disabled then 1 else 0)
    && forall i :: 0 <= i < |s.tripped| ==> Window(s.log, threshold, s.tripped[i])
  }

  /** A full window is noticed, or about to be. */
  ghost predicate Noticed(s: Shared, threshold: nat) {
    forall p: nat :: Window(s.log, threshold, p) ==> s.disabled || p in s.inFlight
  }

  ghost predicate Inv(s: Shared, threshold: nat) {
    CallsKnown(s) && TripsKnown(s, threshold) && Noticed(s, threshold)
  }

  lemma MoreKeeps(s: Shared, t: Shared, threshold: nat, e: Event)
    requires Inv(s, threshold) && t.log == s.log + [e]
    requires t == s.(log := t.log, consecutive := t.consecutive, inFlight := t.inFlight)
    requires e == Failure ==> t.consecutive == s.consecutive + 1 && t.inFlight == s.inFlight[|s.log| := s.consecutive + 1]
    requires e == Success ==> t.consecutive == 0 && t.inFlight == s.inFlight
    ensures Inv(t, threshold)
  {
    hide Window, Streak;
    LongerStreak(s.log, e);
    forall p | p in t.inFlight
      ensures p < |t.log| && t.log[p] == Failure && t.inFlight[p] == Streak(t.log[..p + 1])
    {
      if p < |s.log| {
        assert t.log[..p + 1] == s.log[..p + 1];
      } else {
        assert t.log[..p + 1] == t.log;
      }
    }
    forall i | 0 <= i < |t.tripped| ensures Window(t.log, threshold, t.tripped[i]) {
      WindowStays(s.log, e, threshold, s.tripped[i]);
    }
    forall p: nat | Window(t.log, threshold, p) ensures t.disabled || p in t.inFlight {
      WindowBefore(s.log, e, threshold, p);
    }
  }

  lemma LongerStreak(log: seq<Event>, e: Event)
    ensures Streak(log + [e]) == if e == Failure then Streak(log) + 1 else 0
  {
  }

  lemma WindowStays(log: seq<Event>, e: Event, threshold: nat, p: nat)
    requires Window(log, threshold, p)
    ensures Window(log + [e], threshold, p)
  {
  }

  lemma WindowBefore(log: seq<Event>, e: Event, threshold: nat, p: nat)
    requires Window(log + [e], threshold, p)
    ensures p < |log| ==> Window(log, threshold, p)
    ensures p >= |log| ==> p == |log| && e == Failure
  {
    if p < |log| {
      assert forall q :: 0 <= q < |log| ==> (log + [e])[q] == log[q];
    } else {
      assert (log + [e])[p] == e;
    }
  }

  lemma NoWindowOfNone(log: seq<Event>)
    ensures forall p: nat :: !Window(log, 0, p)
  {
  }

  lemma DecideKeeps(s: Shared, threshold: nat, call: nat)
    requires Inv(s, threshold)
    ensures Inv(TakeStep(s, threshold, Decide(call)), threshold)
  {
    hide Window, Streak;
    if threshold == 0 {
      NoWindowOfNone(s.log);
    } else if call in s.inFlight {
      StreakIsWindow(s.log, threshold, call);
    }
  }

  lemma StepKeeps(s: Shared, threshold: nat, step: Step)
    requires Inv(s, threshold)
    ensures Inv(TakeStep(s, threshold, step), threshold)
  {
    hide Inv, AccountLevel;
    var t := TakeStep(s, threshold, step);
    match step
    case Fail(code) =>
      if AccountLevel(code) {
        MoreKeeps(s, t, threshold, Failure);
      }
    case Succeed => MoreKeeps(s, t, threshold, Success);
    case Decide(call) => DecideKeeps(s, threshold, call);
  }

  lemma {:induction false} RunKeeps(threshold: nat, steps: seq<Step>)
    ensures Inv(Run(threshold, steps), threshold)
  {
    if steps != [] {
      RunKeeps(threshold, steps[..|steps| - 1]);
      StepKeeps(Run(threshold, steps[..|steps| - 1]), threshold, steps[|steps| - 1]);
    }
  }

  /** Under every interleaving at most one call reports the disabling, it does so exactly when the
      user becomes disabled, and its own failure ended `threshold` account-level failures in a row. */
  lemma DisabledOnceAndForCause(threshold: nat, steps: seq<Step>)
    ensures var s := Run(threshold, steps);
            && |s.tripped| == (if s.disabled then 1 else 0)
            && (s.disabled ==> Window(Reaching(steps), threshold, s.tripped[0]))
  {
    RunKeeps(threshold, steps);
    LogIsReaching(threshold, steps);
  }

  /** What reaches the counter: failures to connect and crashes, and successes. */
  function Reaching(steps: seq<Step>): seq<Event> {
    if steps == [] then []
    else
      Reaching(steps[..|steps| - 1])
      + match steps[|steps| - 1]
        case Fail(code) => if code == "POOL_EMPTY" || code == "PANIC" then [Failure] else []
        case Succeed => [Success]
        case Decide(_) => []
  }

  lemma {:induction false} LogIsReaching(threshold: nat, steps: seq<Step>)
    ensures Run(threshold, steps).log == Reaching(steps)
  {
    if steps != [] {
      LogIsReaching(threshold, steps[..|steps| - 1]);
    }
  }

  /** Once no call is left half way, the user is disabled exactly when some `threshold` failures to connect or
      crashes ever came in a row: no interleaving lets such a row go unnoticed. */
  lemma QuiescentDisabledIff(threshold: nat, steps: seq<Step>)
    requires Run(threshold, steps).inFlight == map[]
    ensures Run(threshold, steps).disabled <==> exists p: nat :: Window(Reaching(steps), threshold, p)
  {
    RunKeeps(threshold, steps);
    LogIsReaching(threshold, steps);
    var s := Run(threshold, steps);
    if s.disabled {
      assert Window(s.log, threshold, s.tripped[0]);
    }
  }

  lemma {:induction false} NeverReenabled(threshold: nat, steps: seq<Step>, more: seq<Step>)
    requires Run(threshold, steps).disabled
    ensures Run(threshold, steps + more).disabled && Run(threshold, steps + more).tripped == Run(threshold, steps).tripped
  {
    if more == [] {
      assert steps + more == steps;
    } else {
      var all := steps + more;
      assert all[..|all| - 1] == steps + more[..|more| - 1];
      NeverReenabled(threshold, steps, more[..|more| - 1]);
    }
  }

  /** A user whose failures are all server feedback, as every download failure is, is never disabled. */
  lemma {:induction false} FeedbackNeverDisables(threshold: nat, steps: seq<Step>)
    requires forall i :: 0 <= i < |steps| && steps[i].Fail? ==> steps[i].code != "POOL_EMPTY" && steps[i].code != "PANIC"
    ensures !Run(threshold, steps).disabled && Run(threshold, steps).inFlight == map[]
  {
    if steps != [] {
      FeedbackNeverDisables(threshold, steps[..|steps| - 1]);
    }
  }

  /** The places the runner reports a failure from. */
  datatype Site = ConnectFailed | ListFailed | PoolFailed | SinkFailed | DrainFailed
                | TrackIdTimeout | UploadFailed(code: string)

  function SiteKind(site: Site): Kind {
    if site.TrackIdTimeout? || site.UploadFailed? then Upload else Download
  }

  function SiteCode(site: Site): string {
    match site
    case TrackIdTimeout => "TRACKID_TIMEOUT"
    case UploadFailed(code) => code
    case _ => "DOWNLOAD"
  }

  lemma DownloadUsersStay(threshold: nat, steps: seq<Step>)
    requires forall i :: 0 <= i < |steps| && steps[i].Fail? ==>
                           exists site: Site :: SiteKind(site) == Download && steps[i].code == SiteCode(site)
    ensures !Run(threshold, steps).disabled
  {
    assert "DOWNLOAD"[0] == 'D' && "POOL_EMPTY"[0] == 'P' && "PANIC"[0] == 'P';
    FeedbackNeverDisables(threshold, steps);
  }

  /** The counter is read before it can be reset: a success that lands between the last failure's
      increment and its decision does not save the user. */
  lemma SuccessTooLate(s: Shared, threshold: nat)
    requires Inv(s, threshold) && !s.disabled && threshold > 0 && s.consecutive + 1 >= threshold
    ensures var t := TakeStep(TakeStep(TakeStep(s, threshold, Fail("PANIC")), threshold, Succeed), threshold, Decide(|s.log|));
            t.disabled && t.consecutive == 0
  {
  }

  /** A call that is not interrupted does what the sequential method says. */
  lemma UninterruptedCall(s: Shared, st: Status, threshold: nat, code: string, basename: string, now: int, then_: int)
    requires st.consecutive == s.consecutive && st.disabled == s.disabled
    ensures var t := TakeStep(s, threshold, Fail(code));
            var u := if AccountLevel(code) then TakeStep(t, threshold, Decide(|s.log|)) else t;
            var after := AfterFailure(st, threshold, code, basename, now, then_);
            && u.consecutive == after.consecutive && u.disabled == after.disabled
            && (|u.tripped| > |s.tripped| <==> Trips(st, threshold, code))
  {
  }

  // ---------------------------------------------------------------- why the run stopped

  /** `owed` is the detail the winning call has yet to store; `cancels` are the calls that have yet to
      cancel dispatch. */
  datatype StopState = StopState(reason: Option<string>, detail: string, cancelled: bool, owed: Option<string>, cancels: nat)

  datatype StopStep =
    | StopByUser
    | StopWithReason(code: string, detail: string)
    | StoreDetail
    | CancelDispatch

  const RUNNING := StopState(None, "", false, None, 0)

  function TakeStop(s: StopState, step: StopStep): StopState {
    match step
    case StopByUser => s.(reason := if s.reason.None? then Some("user") else s.reason, cancels := s.cancels + 1)
    case StopWithReason(code, detail) =>
      if s.reason.None? then s.(reason := Some(code), owed := Some(detail)) else s
    case StoreDetail =>
      if s.owed.None? then s
      else s.(owed := None, detail := if s.owed.value != "" then s.owed.value else s.detail, cancels := s.cancels + 1)
    case CancelDispatch => if s.cancels == 0 then s else s.(cancelled := true, cancels := s.cancels - 1)
  }

  function Stops(steps: seq<StopStep>): StopState {
    if steps == [] then RUNNING else TakeStop(Stops(steps[..|steps| - 1]), steps[|steps| - 1])
  }

  /** What the first claim among the steps asks for: its reason and its detail. */
  function FirstClaim(steps: seq<StopStep>): Option<(string, string)> {
    if steps == [] then None
    else if steps[0].StopByUser? then Some(("user", ""))
    else if steps[0].StopWithReason? then Some((steps[0].code, steps[0].detail))
    else FirstClaim(steps[1..])
  }

  lemma {:induction false} FirstClaimGrows(steps: seq<StopStep>, step: StopStep)
    ensures FirstClaim(steps + [step]) == if FirstClaim(steps).Some? then FirstClaim(steps) else FirstClaim([step])
  {
    if steps == [] {
      assert steps + [step] == [step];
    } else {
      assert (steps + [step])[1..] == steps[1..] + [step];
      FirstClaimGrows(steps[1..], step);
    }
  }

  /** Whatever else is claimed later, the reason and its detail are the first claim's; once every call
      has finished, dispatch is cancelled exactly when something was claimed. */
  lemma {:induction false} FirstReasonWins(steps: seq<StopStep>)
    ensures var s, first := Stops(steps), FirstClaim(steps);
            && s.reason == (if first.Some? then Some(first.value.0) else None)
            && (s.owed.Some? ==> first.Some? && s.owed.value == first.value.1 && s.detail == "")
            && (s.owed.None? ==> s.detail == if first.Some? then first.value.1 else "")
            && (first.Some? <==> s.cancelled || s.cancels > 0 || s.owed.Some?)
  {
    if steps != [] {
      var init, last := steps[..|steps| - 1], steps[|steps| - 1];
      assert steps == init + [last];
      FirstReasonWins(init);
      FirstClaimGrows(init, last);
    }
  }
}
