/** The log-linear latency histogram at rest: bucketing, bounds and percentiles. */
module Histogram {

  const MIN_NS := 1_000
  const TOP_NS := 10_000_000_000
  const DECADES := 7
  const SUB_BUCKETS := 32
  const NUM_BUCKETS := 225

  function Pow10(n: nat): nat {
    if n == 0 then 1 else 10 * Pow10(n - 1)
  }

  function DecadeLow(d: nat): nat {
    MIN_NS * Pow10(d)
  }

  function DecadeStep(d: nat): nat {
    9 * DecadeLow(d) / SUB_BUCKETS
  }

  lemma Powers()
    ensures Pow10(1) == 10 && Pow10(2) == 100 && Pow10(3) == 1_000 && Pow10(4) == 10_000
    ensures Pow10(5) == 100_000 && Pow10(6) == 1_000_000 && Pow10(7) == 10_000_000
  {
  }

  /** The decade of a sample in range: DecadeLow(d) <= ns < 10 * DecadeLow(d). */
  function Decade(ns: nat): (d: nat)
    requires MIN_NS <= ns < TOP_NS
    ensures d < DECADES && DecadeLow(d) <= ns < 10 * DecadeLow(d)
  {
    Powers();
    if ns < 10_000 then 0
    else if ns < 100_000 then 1
    else if ns < 1_000_000 then 2
    else if ns < 10_000_000 then 3
    else if ns < 100_000_000 then 4
    else if ns < 1_000_000_000 then 5
    else 6
  }

  lemma DivBounds(a: nat, b: nat)
    requires b > 0
    ensures (a / b) * b <= a < (a / b + 1) * b
  {
  }

  lemma DivNat(a: nat, b: nat)
    requires b > 0
    ensures a / b >= 0
  {
  }

  lemma MulCancel(x: int, y: int, c: nat)
    requires x * c < y * c
    ensures x < y
  {
  }

  function Quotient(a: nat, b: nat): (q: nat)
    requires b > 0
    ensures q * b <= a < (q + 1) * b
  {
    DivBounds(a, b);
    DivNat(a, b);
    a / b
  }

  /** The sub-bucket within decade `d`, clamped to the last one. */
  function SubOf(d: nat, ns: nat): (sub: nat)
    requires DecadeLow(d) <= ns
    ensures sub < SUB_BUCKETS
  {
    StepPositive(d);
    var sub := Quotient(ns - DecadeLow(d), DecadeStep(d));
    if sub < SUB_BUCKETS then sub else SUB_BUCKETS - 1
  }

  function BucketOf(ns: int): (idx: nat)
    ensures idx < NUM_BUCKETS
  {
    if ns < MIN_NS then 0
    else if ns >= TOP_NS then NUM_BUCKETS - 1
    else Decade(ns) * SUB_BUCKETS + SubOf(Decade(ns), ns)
  }

  lemma StepPositive(d: nat)
    ensures DecadeStep(d) > 0
    ensures Pow10(d) >= 1
  {
    if d > 0 {
      StepPositive(d - 1);
    }
  }

  method Pow10Of(n: nat) returns (out: nat)
    ensures out == Pow10(n)
  {
    out := 1;
    for i := 0 to n
      invariant out == Pow10(i)
    {
      out := out * 10;
    }
  }

  method SubIndex(d: nat, ns: nat) returns (sub: nat)
    requires DecadeLow(d) <= ns
    ensures sub == SubOf(d, ns)
  {
    var p := Pow10Of(d);
    var low := MIN_NS * p;
    var high := low * 10;
    var step := (high - low) / SUB_BUCKETS;
    StepPositive(d);
    if step <= 0 {
      step := 1;
    }
    sub := (ns - low) / step;
    if sub >= SUB_BUCKETS {
      sub := SUB_BUCKETS - 1;
    }
  }

  method BucketIndex(ns: int) returns (idx: nat)
    ensures idx == BucketOf(ns)
  {
    if ns < MIN_NS {
      return 0;
    }
    if ns >= TOP_NS {
      return NUM_BUCKETS - 1;
    }
    hide Decade, SubOf;
    var d, thresh := 0, MIN_NS * 10;
    while ns >= thresh && d < DECADES - 1
      invariant d < DECADES && thresh == 10 * DecadeLow(d) && DecadeLow(d) <= ns
    {
      d := d + 1;
      thresh := thresh * 10;
    }
    SameDecade(ns, d);
    var sub := SubIndex(d, ns);
    idx := d * SUB_BUCKETS + sub;
  }

  lemma SameDecade(ns: nat, d: nat)
    requires MIN_NS <= ns < TOP_NS && d < DECADES
    requires DecadeLow(d) <= ns && (ns < 10 * DecadeLow(d) || d == DECADES - 1)
    ensures d == Decade(ns)
  {
    Powers();
  }

  function BucketLow(idx: nat): int {
    if idx >= NUM_BUCKETS - 1 then DecadeLow(DECADES)
    else DecadeLow(idx / SUB_BUCKETS) + (idx % SUB_BUCKETS) * DecadeStep(idx / SUB_BUCKETS)
  }

  function BucketHigh(idx: nat): int {
    if idx >= NUM_BUCKETS - 1 then 10 * DecadeLow(DECADES)
    else DecadeLow(idx / SUB_BUCKETS) + (idx % SUB_BUCKETS + 1) * DecadeStep(idx / SUB_BUCKETS)
  }

  /** The truncated step leaves 8 and 16 ns above the last buckets of the two lowest decades. */
  predicate InSliver(ns: int) {
    9_992 <= ns < 10_000 || 99_984 <= ns < 100_000
  }

  lemma Steps()
    ensures DecadeLow(0) == 1_000 && DecadeStep(0) == 281
    ensures DecadeLow(1) == 10_000 && DecadeStep(1) == 2_812
    ensures forall d :: 2 <= d < DECADES ==> 32 * DecadeStep(d) == 9 * DecadeLow(d)
    ensures forall d :: 0 <= d < DECADES ==> DecadeLow(d + 1) == 10 * DecadeLow(d)
    ensures DecadeLow(DECADES) == TOP_NS
  {
    Powers();
    forall d | 2 <= d < DECADES ensures 32 * DecadeStep(d) == 9 * DecadeLow(d) {
      assert d == 2 || d == 3 || d == 4 || d == 5 || d == 6;
    }
  }

  lemma SplitIndex(d: nat, sub: nat)
    requires sub < SUB_BUCKETS
    ensures (d * SUB_BUCKETS + sub) / SUB_BUCKETS == d && (d * SUB_BUCKETS + sub) % SUB_BUCKETS == sub
  {
  }

  /** A sample in range lies between its bucket's bounds, except that slivers overshoot the upper one. */
  lemma BucketHoldsSample(ns: nat)
    requires MIN_NS <= ns < TOP_NS
    ensures BucketOf(ns) < NUM_BUCKETS - 1
    ensures BucketLow(BucketOf(ns)) <= ns
    ensures ns < BucketHigh(BucketOf(ns)) <==> !InSliver(ns)
    ensures ns < BucketHigh(BucketOf(ns)) + 16
  {
    var d := Decade(ns);
    var low, step := DecadeLow(d), DecadeStep(d);
    StepPositive(d);
    Steps();
    var q := Quotient(ns - low, step);
    SplitIndex(d, SubOf(d, ns));
    if q >= SUB_BUCKETS {
      assert q * step >= SUB_BUCKETS * step;
    }
  }

  /** No bucket is wider than 9/32 of its own lower bound. */
  lemma BucketWidth(idx: nat)
    requires idx < NUM_BUCKETS - 1
    ensures 32 * (BucketHigh(idx) - BucketLow(idx)) <= 9 * DecadeLow(idx / SUB_BUCKETS)
    ensures DecadeLow(idx / SUB_BUCKETS) <= BucketLow(idx) < BucketHigh(idx)
  {
    var d, sub := idx / SUB_BUCKETS, idx % SUB_BUCKETS;
    StepPositive(d);
    assert (sub + 1) * DecadeStep(d) == sub * DecadeStep(d) + DecadeStep(d);
    assert sub * DecadeStep(d) >= 0;
  }

  lemma DivMonotone(a: nat, b: nat, c: nat)
    requires a <= b && c > 0
    ensures Quotient(a, c) <= Quotient(b, c)
  {
    MulCancel(Quotient(a, c), Quotient(b, c) + 1, c);
  }

  lemma DecadeMonotone(a: nat, b: nat)
    requires MIN_NS <= a <= b < TOP_NS
    ensures Decade(a) <= Decade(b)
  {
  }

  lemma SubMonotone(d: nat, a: nat, b: nat)
    requires DecadeLow(d) <= a <= b
    ensures SubOf(d, a) <= SubOf(d, b)
  {
    StepPositive(d);
    DivMonotone(a - DecadeLow(d), b - DecadeLow(d), DecadeStep(d));
  }

  /** Slower samples never land in an earlier bucket. */
  lemma BucketMonotone(a: int, b: int)
    requires a <= b
    ensures BucketOf(a) <= BucketOf(b)
  {
    if MIN_NS <= a && b < TOP_NS {
      DecadeMonotone(a, b);
      hide Decade, DecadeLow, SubOf;
      if Decade(a) == Decade(b) {
        SubMonotone(Decade(a), a, b);
      }
    }
  }

  /** Buckets are laid out in order and do not overlap. */
  lemma BoundsOrdered(i: nat, j: nat)
    requires i < j < NUM_BUCKETS
    ensures BucketHigh(i) <= BucketLow(j)
  {
    var d, e := i / SUB_BUCKETS, j / SUB_BUCKETS;
    var s, t := i % SUB_BUCKETS, j % SUB_BUCKETS;
    Steps();
    StepPositive(d);
    assert (s + 1) * DecadeStep(d) <= SUB_BUCKETS * DecadeStep(d);
    assert BucketHigh(i) <= 10 * DecadeLow(d);
    if d == e && j < NUM_BUCKETS - 1 {
      assert (s + 1) * DecadeStep(d) <= t * DecadeStep(d);
    } else {
      DecadesOrdered(d + 1, if j == NUM_BUCKETS - 1 then DECADES else e);
      if j < NUM_BUCKETS - 1 {
        StepPositive(e);
        assert t * DecadeStep(e) >= 0;
      }
    }
  }

  lemma DecadesOrdered(d: nat, e: nat)
    requires d <= e
    ensures DecadeLow(d) <= DecadeLow(e)
  {
    if d < e {
      DecadesOrdered(d, e - 1);
    }
  }
}
