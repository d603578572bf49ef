/** Per-client token buckets over real time, and the map of them with idle eviction. */
module RateLimiter {

  import opened Collections

  datatype Limit = Limit(capacity: real, refill: real)

  /** `last` is unset until the first request. Times are seconds. */
  datatype Bucket = Bucket(tokens: real, last: Option<real>, limit: Limit)

  predicate Proper(limit: Limit) {
    limit.capacity >= 1.0 && limit.refill > 0.0
  }

  function New(limit: Limit): Bucket {
    Bucket(0.0, None, limit)
  }

  /** What a bucket gains from its last request until `now`. */
  function Gain(b: Bucket, now: real): real {
    if b.last.None? then 0.0 else b.limit.refill * (now - b.last.value)
  }

  /** The tokens on hand at `now`, before the request takes one. */
  function Refilled(b: Bucket, now: real): real {
    if b.last.None? then b.limit.capacity
    else
      var t := b.tokens + Gain(b, now);
      if t > b.limit.capacity then b.limit.capacity else t
  }

  function Admits(b: Bucket, now: real): bool {
    Refilled(b, now) >= 1.0
  }

  function After(b: Bucket, now: real): Bucket {
    Bucket(if Admits(b, now) then Refilled(b, now) - 1.0 else Refilled(b, now), Some(now), b.limit)
  }

  class TokenBucket {
    var tokens: real
    var last: Option<real>
    const limit: Limit

    function View(): Bucket
      reads this
    {
      Bucket(tokens, last, limit)
    }

    constructor (limit: Limit)
      ensures View() == New(limit)
    {
      this.limit := limit;
      tokens, last := 0.0, None;
    }

    method Allow(now: real) returns (ok: bool)
      modifies this
      ensures View() == After(old(View()), now) && ok == Admits(old(View()), now)
    {
      ghost var was := View();
      if last.Some? {
        var gained := limit.refill * (now - last.value);
        assert gained == Gain(was, now);
        hide Gain;
        tokens := tokens + gained;
        if tokens > limit.capacity {
          tokens := limit.capacity;
        }
      } else {
        tokens := limit.capacity;
      }
      last := Some(now);
      if tokens >= 1.0 {
        tokens := tokens - 1.0;
        return true;
      }
      return false;
    }
  }

  ghost predicate Ordered(times: seq<real>) {
    forall i, j :: 0 <= i < j < |times| ==> times[i] <= times[j]
  }

  /** The bucket after the first `n` requests. */
  function Bucketed(limit: Limit, times: seq<real>, n: nat): Bucket
    requires n <= |times|
  {
    if n == 0 then New(limit) else After(Bucketed(limit, times, n - 1), times[n - 1])
  }

  /** Requests `i` up to but not including `j` that were let through. */
  function Allowed(limit: Limit, times: seq<real>, i: nat, j: nat): nat
    requires i <= j <= |times|
  {
    if i == j then 0
    else Allowed(limit, times, i, j - 1) + if Admits(Bucketed(limit, times, j - 1), times[j - 1]) then 1 else 0
  }

  predicate InRange(b: Bucket) {
    0.0 <= b.tokens <= b.limit.capacity
  }

  lemma GainNonNegative(b: Bucket, now: real)
    requires Proper(b.limit) && (b.last.Some? ==> b.last.value <= now)
    ensures Gain(b, now) >= 0.0
  {
  }

  lemma ScaleUp(refill: real, a: real, b: real)
    requires refill > 0.0 && a <= b
    ensures refill * a <= refill * b
  {
  }

  /** A refill adds tokens, at the rate at most, and never past the capacity. */
  lemma RefilledRange(b: Bucket, now: real)
    requires Proper(b.limit) && InRange(b) && (b.last.Some? ==> b.last.value <= now)
    ensures 0.0 <= Refilled(b, now) <= b.limit.capacity
    ensures b.last.Some? ==>
              b.tokens <= Refilled(b, now) <= b.tokens + Gain(b, now)
    ensures b.last.Some? && Gain(b, now) >= 1.0 ==> Admits(b, now)
    ensures b.last.None? ==> Admits(b, now)
    ensures InRange(After(b, now))
    ensures After(b, now).tokens + (if Admits(b, now) then 1.0 else 0.0) == Refilled(b, now)
  {
    hide Gain;
    GainNonNegative(b, now);
  }

  /** Tokens never leave the range from zero to the capacity. */
  lemma {:induction false} TokensInRange(limit: Limit, times: seq<real>, n: nat)
    requires Proper(limit) && Ordered(times) && n <= |times|
    ensures Bucketed(limit, times, n).limit == limit && InRange(Bucketed(limit, times, n))
    ensures Bucketed(limit, times, n).last == if n == 0 then None else Some(times[n - 1])
  {
    if n > 0 {
      TokensInRange(limit, times, n - 1);
      RefilledRange(Bucketed(limit, times, n - 1), times[n - 1]);
      hide Refilled;
    }
  }

  /** The most requests a bucket may let through in `d` seconds: its capacity and what it refills. */
  function Allowance(limit: Limit, d: real): real {
    limit.capacity + limit.refill * d
  }

  lemma AllowanceGrows(b: Bucket, start: real, now: real)
    requires b.last.Some?
    ensures Allowance(b.limit, 0.0) == b.limit.capacity
    ensures Allowance(b.limit, b.last.value - start) + Gain(b, now) == Allowance(b.limit, now - start)
  {
  }

  /** Between request `i` and request `j`, tokens on hand plus requests let through are bounded. */
  lemma {:induction false} WindowPotential(limit: Limit, times: seq<real>, i: nat, j: nat)
    requires Proper(limit) && Ordered(times) && i < j <= |times|
    ensures Bucketed(limit, times, j).tokens + Allowed(limit, times, i, j) as real
            <= Allowance(limit, times[j - 1] - times[i])
  {
    assert Allowance(limit, 0.0) == limit.capacity;
    hide Refilled, Admits, After, Allowance, Gain;
    var b := Bucketed(limit, times, j - 1);
    TokensInRange(limit, times, j - 1);
    RefilledRange(b, times[j - 1]);
    if j == i + 1 {
      assert Allowed(limit, times, i, i) == 0;
      assert times[j - 1] - times[i] == 0.0;
    } else {
      WindowPotential(limit, times, i, j - 1);
      AllowanceGrows(b, times[i], times[j - 1]);
    }
  }

  /** In any window the requests let through are at most the capacity plus what the window refills. */
  lemma WindowBound(limit: Limit, times: seq<real>, i: nat, j: nat)
    requires Proper(limit) && Ordered(times) && i < j <= |times|
    ensures Allowed(limit, times, i, j) as real <= Allowance(limit, times[j - 1] - times[i])
  {
    hide Bucketed, Allowed;
    WindowPotential(limit, times, i, j);
    TokensInRange(limit, times, j);
  }

  /** A caller that leaves at least 1/refill between requests is never refused. */
  lemma SpacedNeverRefused(limit: Limit, times: seq<real>, n: nat)
    requires Proper(limit) && Ordered(times) && n < |times|
    requires n > 0 ==> limit.refill * (times[n] - times[n - 1]) >= 1.0
    ensures Admits(Bucketed(limit, times, n), times[n])
  {
    hide Bucketed, Admits, Refilled;
    TokensInRange(limit, times, n);
    RefilledRange(Bucketed(limit, times, n), times[n]);
  }

  // The map of buckets

  const EVICT_AFTER := 600.0

  /** `rateLimitedPaths`: the endpoints with a bucket, and its size and refill rate. */
  const PATHS: map<string, Limit> := map[
    "/api/start" := Limit(10.0, 1.0), "/api/probe" := Limit(10.0, 1.0),
    "/api/schedule" := Limit(10.0, 1.0), "/api/schedule/cancel" := Limit(10.0, 1.0),
    "/api/stop" := Limit(10.0, 1.0), "/api/hostkeys/remove" := Limit(10.0, 1.0),
    "/api/cluster/start" := Limit(5.0, 0.5), "/api/cluster/stop" := Limit(10.0, 1.0),
    "/api/worker/spawn" := Limit(5.0, 0.5), "/api/worker/despawn" := Limit(10.0, 1.0),
    "/api/worker/preflight" := Limit(10.0, 1.0), "/api/worker/probe" := Limit(120.0, 60.0),
    "/api/runs" := Limit(60.0, 30.0), "/api/host" := Limit(60.0, 30.0),
    "/api/status" := Limit(60.0, 30.0), "/api/schedules" := Limit(60.0, 30.0),
    "/api/hostkeys" := Limit(60.0, 30.0), "/api/cluster/status" := Limit(60.0, 30.0),
    "/api/worker/spawned" := Limit(60.0, 30.0)]

  /** Every configured bucket refills completely within the idle time that evicts it. */
  lemma ConfiguredLimits(path: string)
    requires path in PATHS
    ensures Proper(PATHS[path]) && PATHS[path].refill * EVICT_AFTER >= PATHS[path].capacity
    ensures '|' !in path
  {
    LimitsInUse(path);
    NoBarInPath(path);
    hide PATHS;
  }

  lemma LimitsInUse(path: string)
    requires path in PATHS
    ensures PATHS[path] in {Limit(10.0, 1.0), Limit(5.0, 0.5), Limit(120.0, 60.0), Limit(60.0, 30.0)}
  {
  }

  lemma NoBarInPath(path: string)
    requires path in PATHS
    ensures '|' !in path
  {
  }

  datatype Event = Request(ip: string, path: string, now: real) | Sweep(now: real)

  type Buckets = map<string, Bucket>

  function KeyOf(ip: string, path: string): string {
    ip + "|" + path
  }

  /** The bucket a request meets: the client's own, or a new one. */
  function BucketFor(m: Buckets, e: Event): Bucket
    requires e.Request? && e.path in PATHS
  {
    var k := KeyOf(e.ip, e.path);
    if k in m then m[k] else New(PATHS[e.path])
  }

  /** Paths without a limit always pass. */
  function Decision(m: Buckets, e: Event): bool {
    e.Sweep? || e.path !in PATHS || Admits(BucketFor(m, e), e.now)
  }

  predicate Stale(b: Bucket, now: real) {
    b.last.None? || b.last.value < now - EVICT_AFTER
  }

  /** The map after an event; `evicting` is off for the limiter that keeps every bucket. */
  function Handle(m: Buckets, e: Event, evicting: bool): Buckets {
    match e
    case Request(ip, path, now) =>
      if path in PATHS then m[KeyOf(ip, path) := After(BucketFor(m, e), now)] else m
    case Sweep(now) =>
      if evicting then map k | k in m && !Stale(m[k], now) :: m[k] else m
  }

  class Limiter {
    var buckets: Buckets

    constructor ()
      ensures buckets == map[]
    {
      buckets := map[];
    }

    method Serve(ip: string, path: string, now: real) returns (ok: bool)
      modifies this
      ensures ok == Decision(old(buckets), Request(ip, path, now))
      ensures buckets == Handle(old(buckets), Request(ip, path, now), true)
    {
      if path !in PATHS {
        return true;
      }
      var key := ip + "|" + path;
      var b := if key in buckets then buckets[key] else New(PATHS[path]);
      ok := Admits(b, now);
      buckets := buckets[key := After(b, now)];
    }

    method Evict(now: real)
      modifies this
      ensures buckets == Handle(old(buckets), Sweep(now), true)
    {
      var cutoff := now - EVICT_AFTER;
      ghost var was := buckets;
      var todo := buckets.Keys;
      while todo != {}
        invariant todo <= buckets.Keys <= was.Keys
        invariant forall k :: k in was && (k in todo || !Stale(was[k], now)) ==> k in buckets && buckets[k] == was[k]
        invariant forall k :: k in buckets ==> k in was && (k in todo || !Stale(was[k], now)) && buckets[k] == was[k]
        decreases |todo|
      {
        var k :| k in todo;
        todo := todo - {k};
        if buckets[k].last.None? || buckets[k].last.value < cutoff {
          buckets := buckets - {k};
        }
      }
    }
  }

  function Maps(events: seq<Event>, n: nat, evicting: bool): Buckets
    requires n <= |events|
  {
    if n == 0 then map[] else Handle(Maps(events, n - 1, evicting), events[n - 1], evicting)
  }

  ghost predicate OrderedEvents(events: seq<Event>) {
    forall i, j :: 0 <= i < j < |events| ==> events[i].now <= events[j].now
  }

  ghost predicate IsKeyOf(k: string, path: string) {
    path in PATHS && exists ip :: k == KeyOf(ip, path)
  }

  /** A bucket key determines the path it belongs to. */
  lemma KeyDeterminesPath(ip: string, path: string, ip': string, path': string)
    requires path in PATHS && path' in PATHS && KeyOf(ip, path) == KeyOf(ip', path')
    ensures path == path' && ip == ip'
  {
    ConfiguredLimits(path);
    ConfiguredLimits(path');
    LastBarSplits(ip, path, ip', path');
  }

  lemma LastBarSplits(a: string, p: string, b: string, q: string)
    requires '|' !in p && '|' !in q && a + "|" + p == b + "|" + q
    ensures a == b && p == q
  {
    NoLonger(a, p, b, q);
    NoLonger(b, q, a, p);
    assert (a + "|" + p)[..|a|] == a && (b + "|" + q)[..|b|] == b;
    assert (a + "|" + p)[|a| + 1..] == p && (b + "|" + q)[|b| + 1..] == q;
  }

  lemma NoLonger(a: string, p: string, b: string, q: string)
    requires '|' !in q && a + "|" + p == b + "|" + q
    ensures |a| <= |b|
  {
    if |b| <= |a| {
      assert "|" + q == (b + "|" + q)[|b|..] == (a + "|" + p)[|b|..];
      assert ("|" + q)[|a| - |b|] == (a + "|" + p)[|a|] == '|';
    }
  }

  /** At `now` and ever after, a full bucket and a new one answer alike. */
  predicate FullBy(b: Bucket, now: real) {
    b.last.Some? && b.last.value <= now - EVICT_AFTER && b.tokens >= 0.0
  }

  /** Where the maps differ, the evicting one lacks a bucket that is full by now. */
  ghost predicate Alike(keep: Buckets, evict: Buckets, now: real) {
    && evict.Keys <= keep.Keys
    && (forall k :: k in evict ==> evict[k] == keep[k])
    && (forall k :: k in keep && k !in evict ==> FullBy(keep[k], now))
  }

  /** Every kept bucket belongs to a configured path, and was last used no later than `now`. */
  ghost predicate InOrder(keep: Buckets, now: real) {
    forall k :: k in keep ==> BucketInOrder(keep[k], k, now)
  }

  ghost predicate BucketInOrder(b: Bucket, k: string, now: real) {
    && b.tokens >= 0.0 && b.last.Some? && b.last.value <= now
    && exists path :: IsKeyOf(k, path) && b.limit == PATHS[path]
  }

  lemma FullLooksNew(b: Bucket, path: string, now: real)
    requires path in PATHS && b.limit == PATHS[path] && FullBy(b, now)
    ensures Refilled(b, now) == PATHS[path].capacity
  {
  }

  lemma LimitOfKey(b: Bucket, ip: string, path: string, now: real)
    requires path in PATHS && BucketInOrder(b, KeyOf(ip, path), now)
    ensures b.limit == PATHS[path]
  {
    var p :| IsKeyOf(KeyOf(ip, path), p) && b.limit == PATHS[p];
    var ip' :| KeyOf(ip, path) == KeyOf(ip', p);
    KeyDeterminesPath(ip, path, ip', p);
  }

  /** Kept or evicted, the bucket a request meets answers the same and ends the same. */
  lemma SameAnswer(keep: Buckets, evict: Buckets, then_: real, e: Event)
    requires e.Request? && then_ <= e.now && Alike(keep, evict, then_) && InOrder(keep, then_)
    requires e.path in PATHS
    ensures Refilled(BucketFor(keep, e), e.now) == Refilled(BucketFor(evict, e), e.now)
    ensures BucketFor(keep, e).limit == BucketFor(evict, e).limit == PATHS[e.path]
    ensures BucketInOrder(After(BucketFor(keep, e), e.now), KeyOf(e.ip, e.path), e.now)
  {
    hide PATHS, Gain, KeyOf;
    ConfiguredLimits(e.path);
    var k := KeyOf(e.ip, e.path);
    assert IsKeyOf(k, e.path);
    if k in keep {
      assert BucketInOrder(keep[k], k, then_);
      LimitOfKey(keep[k], e.ip, e.path, then_);
      GainNonNegative(keep[k], e.now);
      if k !in evict {
        FullLooksNew(keep[k], e.path, e.now);
      }
    }
  }

  lemma RequestKeeps(keep: Buckets, evict: Buckets, then_: real, e: Event)
    requires e.Request? && then_ <= e.now && Alike(keep, evict, then_) && InOrder(keep, then_)
    ensures Decision(keep, e) == Decision(evict, e)
    ensures Alike(Handle(keep, e, false), Handle(evict, e, true), e.now)
    ensures InOrder(Handle(keep, e, false), e.now)
  {
    hide PATHS, KeyOf, Refilled, BucketFor;
    if e.path in PATHS {
      SameAnswer(keep, evict, then_, e);
    }
    forall k | k in keep ensures BucketInOrder(keep[k], k, e.now) {
      assert BucketInOrder(keep[k], k, then_);
    }
  }

  lemma SweepKeeps(keep: Buckets, evict: Buckets, then_: real, e: Event)
    requires e.Sweep? && then_ <= e.now && Alike(keep, evict, then_) && InOrder(keep, then_)
    ensures Alike(Handle(keep, e, false), Handle(evict, e, true), e.now)
    ensures InOrder(Handle(keep, e, false), e.now)
  {
  }

  lemma {:induction false} EvictionSimulates(events: seq<Event>, n: nat)
    requires OrderedEvents(events) && n <= |events|
    ensures var now := if n == 0 then 0.0 else events[n - 1].now;
            Alike(Maps(events, n, false), Maps(events, n, true), now) && InOrder(Maps(events, n, false), now)
  {
    if n > 0 {
      EvictionSimulates(events, n - 1);
      var e := events[n - 1];
      var then_ := if n == 1 then e.now else events[n - 2].now;
      if e.Request? {
        RequestKeeps(Maps(events, n - 1, false), Maps(events, n - 1, true), then_, e);
      } else {
        SweepKeeps(Maps(events, n - 1, false), Maps(events, n - 1, true), then_, e);
      }
    }
  }

  /** Over every history of requests and sweeps, evicting idle buckets changes no decision. */
  lemma EvictionIsInvisible(events: seq<Event>, n: nat)
    requires OrderedEvents(events) && n < |events|
    ensures Decision(Maps(events, n, true), events[n]) == Decision(Maps(events, n, false), events[n])
  {
    EvictionSimulates(events, n);
    var then_ := if n == 0 then events[0].now else events[n - 1].now;
    if events[n].Request? {
      RequestKeeps(Maps(events, n, false), Maps(events, n, true), then_, events[n]);
    }
  }

  /** When the client asked for the path, among the first `n` events. */
  function OwnTimes(events: seq<Event>, n: nat, ip: string, path: string): seq<real>
    requires n <= |events|
  {
    if n == 0 then []
    else
      var e := events[n - 1];
      OwnTimes(events, n - 1, ip, path) + if e.Request? && e.ip == ip && e.path == path then [e.now] else []
  }

  lemma {:induction false} BucketedBefore(limit: Limit, times: seq<real>, x: real, n: nat)
    requires n <= |times|
    ensures Bucketed(limit, times + [x], n) == Bucketed(limit, times, n)
  {
    if n > 0 {
      BucketedBefore(limit, times, x, n - 1);
    }
  }

  lemma {:induction false} OwnBucket(events: seq<Event>, n: nat, ip: string, path: string)
    requires n <= |events| && path in PATHS
    ensures var m, k, times := Maps(events, n, false), KeyOf(ip, path), OwnTimes(events, n, ip, path);
            && (k !in m ==> times == [])
            && (k in m ==> m[k] == Bucketed(PATHS[path], times, |times|))
  {
    hide PATHS, After;
    if n > 0 {
      OwnBucket(events, n - 1, ip, path);
      var e, times := events[n - 1], OwnTimes(events, n - 1, ip, path);
      assert times + [] == times;
      if e.Request? && e.path in PATHS && KeyOf(e.ip, e.path) == KeyOf(ip, path) {
        KeyDeterminesPath(e.ip, e.path, ip, path);
        OneMoreTime(PATHS[path], times, e.now);
      }
    }
  }

  lemma OneMoreTime(limit: Limit, times: seq<real>, x: real)
    ensures Bucketed(limit, times + [x], |times| + 1) == After(Bucketed(limit, times, |times|), x)
  {
    BucketedBefore(limit, times, x, |times|);
  }

  /** The whole limiter, sweeps and all, is one token bucket for each client and limited path, which sees that client's
      requests to that path and nothing else; a path without a limit always passes. */
  lemma EachHasItsOwnBucket(events: seq<Event>, n: nat)
    requires OrderedEvents(events) && n < |events| && events[n].Request?
    ensures var e := events[n];
            var times := OwnTimes(events, n, e.ip, e.path);
            Decision(Maps(events, n, true), e)
            <==> e.path in PATHS ==> Admits(Bucketed(PATHS[e.path], times, |times|), e.now)
  {
    EvictionIsInvisible(events, n);
    if events[n].path in PATHS {
      OwnBucket(events, n, events[n].ip, events[n].path);
    }
    hide PATHS, KeyOf, Admits, Maps;
  }

  predicate IsFor(e: Event, ip: string, path: string) {
    e.Request? && KeyOf(e.ip, e.path) == KeyOf(ip, path) && e.path in PATHS
  }

  /** How many of the client's requests to the path the evicting limiter let through, among events `i` to `j`. */
  function Passed(events: seq<Event>, i: nat, j: nat, ip: string, path: string): nat
    requires i <= j <= |events|
  {
    if i == j then 0
    else
      var passes := IsFor(events[j - 1], ip, path) && Decision(Maps(events, j - 1, true), events[j - 1]);
      Passed(events, i, j - 1, ip, path) + if passes then 1 else 0
  }

  /** The potential of the client's bucket, in the limiter that keeps every bucket. */
  ghost predicate Bounded(events: seq<Event>, i: nat, j: nat, ip: string, path: string)
    requires i < j <= |events| && path in PATHS
  {
    var m, k := Maps(events, j, false), KeyOf(ip, path);
    && k in m && m[k].limit == PATHS[path] && InRange(m[k])
    && m[k].last.Some? && events[i].now <= m[k].last.value <= events[j - 1].now
    && m[k].tokens + Passed(events, i, j, ip, path) as real
       <= Allowance(PATHS[path], m[k].last.value - events[i].now)
  }

  lemma OwnBucketInRange(events: seq<Event>, n: nat, ip: string, path: string)
    requires OrderedEvents(events) && n < |events| && path in PATHS
    ensures var m, k := Maps(events, n, false), KeyOf(ip, path);
            k in m ==> m[k].limit == PATHS[path] && InRange(m[k]) && m[k].last.Some? && m[k].last.value <= events[n].now
  {
    hide PATHS;
    var k := KeyOf(ip, path);
    ConfiguredLimits(path);
    if n > 0 {
      OwnBucketInRange(events, n - 1, ip, path);
      EvictionSimulates(events, n);
      var m := Maps(events, n, false);
      if k in m {
        assert BucketInOrder(m[k], k, events[n - 1].now);
        LimitOfKey(m[k], ip, path, events[n - 1].now);
        var before := Maps(events, n - 1, false);
        if IsFor(events[n - 1], ip, path) {
          KeyDeterminesPath(events[n - 1].ip, events[n - 1].path, ip, path);
          RefilledRange(BucketFor(before, events[n - 1]), events[n - 1].now);
        }
      }
    }
  }

  lemma OwnRequest(events: seq<Event>, i: nat, j: nat, b: Bucket, ip: string, path: string)
    requires i < j - 1 && j <= |events| && path in PATHS
    requires Bounded(events, i, j - 1, ip, path) && b == Maps(events, j - 1, false)[KeyOf(ip, path)]
    ensures b.tokens + Gain(b, events[j - 1].now) + Passed(events, i, j - 1, ip, path) as real
            <= Allowance(PATHS[path], events[j - 1].now - events[i].now)
  {
    hide PATHS, Passed, Maps, Allowance, Gain;
    AllowanceGrows(b, events[i].now, events[j - 1].now);
  }

  /** What one of the client's own requests does to the bucket of the limiter that keeps everything. */
  lemma OwnDecision(events: seq<Event>, n: nat, ip: string, path: string)
    requires OrderedEvents(events) && n < |events| && path in PATHS && IsFor(events[n], ip, path)
    ensures events[n].path == path
    ensures var b, k := BucketFor(Maps(events, n, false), events[n]), KeyOf(ip, path);
            && (k in Maps(events, n, false) ==> b == Maps(events, n, false)[k])
            && k in Maps(events, n + 1, false) && Maps(events, n + 1, false)[k] == After(b, events[n].now)
            && Decision(Maps(events, n, true), events[n]) == Admits(b, events[n].now)
            && b.limit == PATHS[path] && InRange(b) && (b.last.Some? ==> b.last.value <= events[n].now)
  {
    KeyDeterminesPath(events[n].ip, events[n].path, ip, path);
    ConfiguredLimits(path);
    hide PATHS, Gain, Refilled, KeyOf, Admits, After;
    EvictionIsInvisible(events, n);
    OwnBucketInRange(events, n, ip, path);
  }

  /** One of the client's own requests keeps the potential; the first one starts it. */
  lemma OwnStep(events: seq<Event>, i: nat, j: nat, ip: string, path: string)
    requires OrderedEvents(events) && i < j <= |events| && path in PATHS && IsFor(events[j - 1], ip, path)
    requires i < j - 1 ==> Bounded(events, i, j - 1, ip, path)
    ensures Bounded(events, i, j, ip, path)
  {
    var e := events[j - 1];
    var b := BucketFor(Maps(events, j - 1, false), e);
    OwnDecision(events, j - 1, ip, path);
    ConfiguredLimits(path);
    assert After(b, e.now).last == Some(e.now) && After(b, e.now).limit == b.limit;
    assert Allowance(b.limit, 0.0) == b.limit.capacity;
    hide PATHS, Gain, Refilled, KeyOf, Admits, After, Maps, BucketFor, Decision, Allowance, IsFor;
    RefilledRange(b, e.now);
    if i < j - 1 {
      OwnRequest(events, i, j, b, ip, path);
    } else {
      assert Passed(events, i, i, ip, path) == 0;
      assert e.now - events[i].now == 0.0;
    }
  }

  /** Anyone else's request, and a sweep of the limiter that keeps everything, leave the bucket alone. */
  lemma OtherStep(events: seq<Event>, i: nat, j: nat, ip: string, path: string)
    requires OrderedEvents(events) && i < j - 1 && j <= |events| && path in PATHS && !IsFor(events[j - 1], ip, path)
    requires Bounded(events, i, j - 1, ip, path)
    ensures Bounded(events, i, j, ip, path)
  {
    hide PATHS, KeyOf, After, BucketFor, InRange;
    assert Maps(events, j, false) == Handle(Maps(events, j - 1, false), events[j - 1], false);
  }

  lemma {:induction false} ClientPotential(events: seq<Event>, i: nat, j: nat, ip: string, path: string)
    requires OrderedEvents(events) && i < j <= |events| && path in PATHS && IsFor(events[i], ip, path)
    ensures Bounded(events, i, j, ip, path)
    decreases j
  {
    hide PATHS, Bounded, IsFor;
    if i < j - 1 {
      ClientPotential(events, i, j - 1, ip, path);
    }
    if IsFor(events[j - 1], ip, path) {
      OwnStep(events, i, j, ip, path);
    } else {
      OtherStep(events, i, j, ip, path);
    }
  }

  /** End to end: from one request of a client on, the evicting limiter lets through at most the
      capacity plus what the elapsed time refills. */
  lemma ClientWindowBound(events: seq<Event>, i: nat, j: nat, ip: string, path: string)
    requires OrderedEvents(events) && i < j <= |events| && path in PATHS && IsFor(events[i], ip, path)
    ensures Passed(events, i, j, ip, path) as real
            <= Allowance(PATHS[path], events[j - 1].now - events[i].now)
  {
    hide PATHS, Passed;
    ClientPotential(events, i, j, ip, path);
    ConfiguredLimits(path);
    ScaleUp(PATHS[path].refill, Maps(events, j, false)[KeyOf(ip, path)].last.value - events[i].now,
            events[j - 1].now - events[i].now);
  }
}
