/** Concurrent `Add`s on the shared histogram, split into their atomic steps,
    with a percentile scan running at the same time. */
module ConcurrentHistogram {
  import opened Histogram
  import opened Percentiles

  /** Where a recording goroutine stands inside `Add`. */
  datatype Adder =
    | Idle
    | Bucketed(ns: nat)         // bucket bumped, count not yet
    | Counted(ns: nat)          // count bumped, sum not yet
    | Summed(ns: nat)           // about to load the maximum
    | Loaded(ns: nat, cur: int) // loaded the maximum, about to compare and swap

  /** Where a reader stands inside `percentile`. */
  datatype Scan =
    | NoScan
    | Scanning(target: nat, next: nat, seen: nat)
    | StoppedAt(bucket: nat)
    | FellThrough

  datatype State = State(
    buckets: seq<nat>, count: nat, sumNs: int, maxNs: int,
    adders: seq<Adder>, scan: Scan,
    started: seq<int>, completed: seq<int>)

  datatype Event =
    | Bump(who: nat, ns: nat)
    | AddCount(who: nat)
    | AddSum(who: nat)
    | LoadMax(who: nat)
    | Compare(who: nat)
    | BeginScan(p: real)
    | ReadBucket

  predicate Init(s: State) {
    && s.buckets == seq(NUM_BUCKETS, _ => 0) && s.count == 0 && s.sumNs == 0 && s.maxNs == 0
    && (forall i :: 0 <= i < |s.adders| ==> s.adders[i] == Idle)
    && s.scan == NoScan && s.started == [] && s.completed == []
  }

  predicate Enabled(s: State, e: Event) {
    match e
    case Bump(who, _) => who < |s.adders| && s.adders[who].Idle? && |s.buckets| == NUM_BUCKETS
    case AddCount(who) => who < |s.adders| && s.adders[who].Bucketed?
    case AddSum(who) => who < |s.adders| && s.adders[who].Counted?
    case LoadMax(who) => who < |s.adders| && s.adders[who].Summed?
    case Compare(who) => who < |s.adders| && s.adders[who].Loaded?
    case BeginScan(p) => 0.0 < p <= 1.0 && !s.scan.Scanning?
    case ReadBucket => s.scan.Scanning? && s.scan.next <= |s.buckets|
  }

  function Apply(s: State, e: Event): State
    requires Enabled(s, e)
  {
    match e
    case Bump(who, ns) =>
      var b := BucketOf(ns);
      s.(buckets := s.buckets[b := s.buckets[b] + 1], adders := s.adders[who := Bucketed(ns)],
         started := s.started + [ns])
    case AddCount(who) =>
      s.(count := s.count + 1, adders := s.adders[who := Counted(s.adders[who].ns)])
    case AddSum(who) =>
      s.(sumNs := s.sumNs + s.adders[who].ns, adders := s.adders[who := Summed(s.adders[who].ns)])
    case LoadMax(who) =>
      s.(adders := s.adders[who := Loaded(s.adders[who].ns, s.maxNs)])
    case Compare(who) =>
      var a := s.adders[who];
      if a.ns <= a.cur then Finish(s, who, s.maxNs)
      else if s.maxNs == a.cur then Finish(s, who, a.ns)
      else s.(adders := s.adders[who := Summed(a.ns)])
    case BeginScan(p) =>
      s.(scan := if s.count == 0 then NoScan else Scanning(Target(p, s.count), 0, 0))
    case ReadBucket =>
      var c := s.scan;
      s.(scan :=
        if c.next == |s.buckets| then FellThrough
        else if s.buckets[c.next] > 0 && c.seen + s.buckets[c.next] >= c.target then StoppedAt(c.next)
        else Scanning(c.target, c.next + 1, c.seen + s.buckets[c.next]))
  }

  /** The add is over: it leaves the loop with `maxNs` as the shared maximum. */
  function Finish(s: State, who: nat, maxNs: int): State
    requires who < |s.adders| && !s.adders[who].Idle?
  {
    s.(maxNs := maxNs, adders := s.adders[who := Idle], completed := s.completed + [s.adders[who].ns])
  }

  /** Samples whose add has begun and not ended. */
  function InFlight(adders: seq<Adder>): multiset<int> {
    if adders == [] then multiset{}
    else InFlight(adders[..|adders| - 1]) + Flight(adders[|adders| - 1])
  }

  function Flight(a: Adder): multiset<int> {
    if a.Idle? then multiset{} else multiset{a.ns}
  }

  /** How many adds have bumped a bucket but not the count. */
  function Uncounted(adders: seq<Adder>): nat {
    if adders == [] then 0
    else Uncounted(adders[..|adders| - 1]) + if adders[|adders| - 1].Bucketed? then 1 else 0
  }

  /** Total of the samples not yet in the sum. */
  function Unsummed(adders: seq<Adder>): int {
    if adders == [] then 0 else Unsummed(adders[..|adders| - 1]) + Owed(adders[|adders| - 1])
  }

  function Owed(a: Adder): int {
    if a.Bucketed? || a.Counted? then a.ns else 0
  }

  lemma {:induction false} Update(adders: seq<Adder>, who: nat, a: Adder)
    requires who < |adders|
    ensures var after := adders[who := a];
            && Uncounted(after) + (if adders[who].Bucketed? then 1 else 0)
               == Uncounted(adders) + (if a.Bucketed? then 1 else 0)
            && Unsummed(after) + Owed(adders[who]) == Unsummed(adders) + Owed(a)
  {
    var after, n := adders[who := a], |adders| - 1;
    if who < n {
      Update(adders[..n], who, a);
      assert after[..n] == adders[..n][who := a];
    } else {
      assert after[..n] == adders[..n];
    }
  }

  lemma {:induction false} UpdateFlight(adders: seq<Adder>, who: nat, a: Adder, x: int)
    requires who < |adders|
    ensures InFlight(adders[who := a])[x] + Flight(adders[who])[x] == InFlight(adders)[x] + Flight(a)[x]
  {
    var after, n := adders[who := a], |adders| - 1;
    if who < n {
      UpdateFlight(adders[..n], who, a, x);
      assert after[..n] == adders[..n][who := a];
    } else {
      assert after[..n] == adders[..n];
    }
  }

  /** Every started sample is either completed or in flight, as many times as it was started. */
  ghost predicate Accounted(started: seq<int>, completed: seq<int>, adders: seq<Adder>) {
    forall x :: multiset(started)[x] == multiset(completed)[x] + InFlight(adders)[x]
  }

  lemma AccountedStart(started: seq<int>, completed: seq<int>, adders: seq<Adder>, who: nat, ns: nat)
    requires Accounted(started, completed, adders) && who < |adders| && adders[who].Idle?
    ensures Accounted(started + [ns], completed, adders[who := Bucketed(ns)])
  {
    forall x
      ensures multiset(started + [ns])[x] == multiset(completed)[x] + InFlight(adders[who := Bucketed(ns)])[x]
    {
      UpdateFlight(adders, who, Bucketed(ns), x);
    }
  }

  lemma AccountedMove(started: seq<int>, completed: seq<int>, adders: seq<Adder>, who: nat, a: Adder)
    requires Accounted(started, completed, adders) && who < |adders|
    requires Flight(a) == Flight(adders[who])
    ensures Accounted(started, completed, adders[who := a])
  {
    forall x
      ensures multiset(started)[x] == multiset(completed)[x] + InFlight(adders[who := a])[x]
    {
      UpdateFlight(adders, who, a, x);
    }
  }

  lemma AccountedFinish(started: seq<int>, completed: seq<int>, adders: seq<Adder>, who: nat)
    requires Accounted(started, completed, adders) && who < |adders| && !adders[who].Idle?
    ensures Accounted(started, completed + [adders[who].ns], adders[who := Idle])
  {
    forall x
      ensures multiset(started)[x] ==
              multiset(completed + [adders[who].ns])[x] + InFlight(adders[who := Idle])[x]
    {
      UpdateFlight(adders, who, Idle, x);
    }
  }

  lemma {:induction false} AllIdle(adders: seq<Adder>)
    requires forall i :: 0 <= i < |adders| ==> adders[i].Idle?
    ensures InFlight(adders) == multiset{} && Uncounted(adders) == 0 && Unsummed(adders) == 0
  {
    if adders != [] {
      AllIdle(adders[..|adders| - 1]);
    }
  }

  function Total(buckets: seq<nat>, i: nat): nat
    requires i <= |buckets|
    decreases |buckets| - i
  {
    if i == |buckets| then 0 else buckets[i] + Total(buckets, i + 1)
  }

  lemma {:induction false} TotalBump(buckets: seq<nat>, i: nat, b: nat)
    requires i <= |buckets| && b < |buckets|
    ensures Total(buckets[b := buckets[b] + 1], i) == Total(buckets, i) + if i <= b then 1 else 0
    decreases |buckets| - i
  {
    if i < |buckets| {
      TotalBump(buckets, i + 1, b);
    }
  }

  /** Every started sample is in exactly one bucket. */
  lemma {:induction false} TotalIsStarted(samples: seq<int>, buckets: seq<nat>, i: nat)
    requires Tallies(buckets, samples) && i <= NUM_BUCKETS
    ensures Count(samples, Below(i)) + Total(buckets, i) == |samples|
    decreases NUM_BUCKETS - i
  {
    hide BucketOf, Count;
    if i == NUM_BUCKETS {
      BelowEnds(samples);
    } else {
      BelowNext(samples, i);
      TotalIsStarted(samples, buckets, i + 1);
    }
  }

  /** Holds in every reachable state. */
  ghost predicate Inv(s: State) {
    Tallies(s.buckets, s.started) && AddersInv(s) && ScanInv(s.scan, s.buckets)
  }

  ghost predicate AddersInv(s: State) {
    && |s.started| == s.count + Uncounted(s.adders)
    && Sum(s.started) == s.sumNs + Unsummed(s.adders)
    && Accounted(s.started, s.completed, s.adders)
    && s.maxNs == Max(s.completed)
    && (forall i :: 0 <= i < |s.adders| && s.adders[i].Loaded? ==> s.adders[i].cur <= s.maxNs)
  }

  ghost predicate ScanInv(c: Scan, buckets: seq<nat>) {
    && !c.FellThrough?
    && (c.Scanning? ==> c.next <= |buckets| && c.seen < c.target <= c.seen + Total(buckets, c.next))
  }

  lemma InitInv(s: State)
    requires Init(s)
    ensures Inv(s)
  {
    AllIdle(s.adders);
  }

  /** The buckets count exactly the samples of `started`. */
  ghost predicate Tallies(buckets: seq<nat>, started: seq<int>) {
    && |buckets| == NUM_BUCKETS
    && forall b :: 0 <= b < NUM_BUCKETS ==> buckets[b] == Count(started, At(b))
  }

  lemma TallyBump(buckets: seq<nat>, started: seq<int>, ns: nat)
    requires Tallies(buckets, started)
    ensures Tallies(buckets[BucketOf(ns) := buckets[BucketOf(ns)] + 1], started + [ns])
  {
  }

  lemma BumpKeeps(s: State, who: nat, ns: nat)
    requires Inv(s) && Enabled(s, Bump(who, ns))
    ensures Inv(Apply(s, Bump(who, ns)))
  {
    TallyBump(s.buckets, s.started, ns);
    hide BucketOf, Count, Accounted, Tallies;
    assert AddersInv(Apply(s, Bump(who, ns))) by {
      hide ScanInv;
      Update(s.adders, who, Bucketed(ns));
      AccountedStart(s.started, s.completed, s.adders, who, ns);
      assert (s.started + [ns])[..|s.started|] == s.started;
    }
    if s.scan.Scanning? {
      TotalBump(s.buckets, s.scan.next, BucketOf(ns));
    }
  }

  lemma AdderStepKeeps(s: State, e: Event)
    requires Inv(s) && Enabled(s, e) && (e.AddCount? || e.AddSum? || e.LoadMax?)
    ensures Inv(Apply(s, e))
  {
    hide Tallies, Accounted, ScanInv;
    var a := s.adders[e.who];
    var next := if e.AddCount? then Counted(a.ns) else if e.AddSum? then Summed(a.ns) else Loaded(a.ns, s.maxNs);
    Update(s.adders, e.who, next);
    AccountedMove(s.started, s.completed, s.adders, e.who, next);
  }

  lemma CompareKeeps(s: State, who: nat)
    requires Inv(s) && Enabled(s, Compare(who))
    ensures Inv(Apply(s, Compare(who)))
  {
    hide Tallies, Accounted, ScanInv;
    var a := s.adders[who];
    if a.ns <= a.cur || s.maxNs == a.cur {
      Update(s.adders, who, Idle);
      AccountedFinish(s.started, s.completed, s.adders, who);
    } else {
      Update(s.adders, who, Summed(a.ns));
      AccountedMove(s.started, s.completed, s.adders, who, Summed(a.ns));
    }
    assert (s.completed + [a.ns])[..|s.completed|] == s.completed;
  }

  lemma ScanStepKeeps(s: State, e: Event)
    requires Inv(s) && Enabled(s, e) && (e.BeginScan? || e.ReadBucket?)
    ensures Inv(Apply(s, e))
  {
    if e.BeginScan? && s.count > 0 {
      TotalIsStarted(s.started, s.buckets, 0);
      BelowEnds(s.started);
      TargetInRange(e.p, s.count);
    }
  }

  /** No interleaving breaks the invariant. */
  lemma StepKeeps(s: State, e: Event)
    requires Inv(s) && Enabled(s, e)
    ensures Inv(Apply(s, e))
  {
    hide Inv, Apply;
    match e
    case Bump(who, ns) => BumpKeeps(s, who, ns);
    case Compare(who) => CompareKeeps(s, who);
    case BeginScan(_) => ScanStepKeeps(s, e);
    case ReadBucket => ScanStepKeeps(s, e);
    case _ => AdderStepKeeps(s, e);
  }

  /** A run: states linked by enabled events, in any interleaving. */
  ghost predicate IsRun(run: seq<State>, events: seq<Event>) {
    && |run| == |events| + 1 && Init(run[0])
    && forall i :: 0 <= i < |events| ==> Enabled(run[i], events[i]) && run[i + 1] == Apply(run[i], events[i])
  }

  lemma {:induction false} RunKeeps(run: seq<State>, events: seq<Event>, n: nat)
    requires IsRun(run, events) && n < |run|
    ensures Inv(run[n])
  {
    if n == 0 {
      InitInv(run[0]);
    } else {
      RunKeeps(run, events, n - 1);
      StepKeeps(run[n - 1], events[n - 1]);
    }
  }

  /** At every moment of every run the buckets hold at least `count` samples, the scan has not
      fallen out of its loop, and the maximum is that of the completed adds. */
  lemma ConcurrentSafety(run: seq<State>, events: seq<Event>, n: nat)
    requires IsRun(run, events) && n < |run|
    ensures |run[n].buckets| == NUM_BUCKETS && Total(run[n].buckets, 0) >= run[n].count
    ensures !run[n].scan.FellThrough?
    ensures run[n].maxNs == Max(run[n].completed)
  {
    RunKeeps(run, events, n);
    TotalIsStarted(run[n].started, run[n].buckets, 0);
    BelowEnds(run[n].started);
  }

  /** Once no add is in flight, the shared fields are those of the same samples added one by one. */
  lemma QuiescentIsSequential(run: seq<State>, events: seq<Event>, n: nat)
    requires IsRun(run, events) && n < |run|
    requires forall i :: 0 <= i < |run[n].adders| ==> run[n].adders[i].Idle?
    ensures var s := run[n];
            && multiset(s.started) == multiset(s.completed)
            && s.count == |s.started| && s.sumNs == Sum(s.started) && s.maxNs == Max(s.started)
            && Tallies(s.buckets, s.started)
  {
    RunKeeps(run, events, n);
    AllIdle(run[n].adders);
    assert forall x :: multiset(run[n].started)[x] == multiset(run[n].completed)[x];
    MaxOfSame(run[n].started, run[n].completed);
  }

  lemma {:induction false} MaxIsBound(samples: seq<int>)
    ensures forall x :: x in samples ==> x <= Max(samples)
    ensures Max(samples) == 0 || Max(samples) in samples
    ensures Max(samples) >= 0
  {
    if samples != [] {
      MaxIsBound(samples[..|samples| - 1]);
      assert samples == samples[..|samples| - 1] + [samples[|samples| - 1]];
    }
  }

  lemma MaxOfSame(a: seq<int>, b: seq<int>)
    requires multiset(a) == multiset(b)
    ensures Max(a) == Max(b)
  {
    MaxIsBound(a);
    MaxIsBound(b);
    assert forall x :: x in a <==> x in multiset(a);
    assert forall x :: x in b <==> x in multiset(b);
  }
}
