/** Quotients and remainders of natural numbers. */
module Modulo {

  lemma Above(a: nat, b: nat, n: nat)
    ensures a < b ==> a * n + n <= b * n
  {
    if a < b {
      Scaled(a + 1, b, n);
      assert (a + 1) * n == a * n + n;
    }
  }

  lemma Scaled(a: nat, b: nat, n: nat)
    requires a <= b
    ensures a * n <= b * n
  {
  }

  lemma SameQuotient(a: nat, r: nat, b: nat, s: nat, n: nat)
    requires r < n && s < n && a * n + r == b * n + s
    ensures a == b && r == s
  {
    Above(a, b, n);
    Above(b, a, n);
  }

  lemma Parts(x: nat, n: nat)
    requires n > 0
    ensures x == x / n * n + x % n && x % n < n
  {
  }

  lemma Divided(q: nat, r: nat, n: nat)
    requires r < n
    ensures (q * n + r) / n == q && (q * n + r) % n == r
  {
    var x := q * n + r;
    Parts(x, n);
    SameQuotient(q, r, x / n, x % n, n);
  }

  lemma Wrap(x: nat, n: nat)
    requires n > 0
    ensures (x + n) % n == x % n
  {
    var q, r := x / n, x % n;
    Parts(x, n);
    assert (q + 1) * n == q * n + n;
    Divided(q + 1, r, n);
  }

  lemma AddModulo(a: nat, b: nat, n: nat)
    requires n > 0
    ensures (a + b) % n == (a % n + b) % n
  {
    Parts(a, n);
    TakeAway(a % n + b, a / n, n);
  }

  lemma {:induction false} TakeAway(x: nat, q: nat, n: nat)
    requires n > 0
    ensures (x + q * n) % n == x % n
  {
    if q > 0 {
      TakeAway(x, q - 1, n);
      assert q * n == (q - 1) * n + n;
      Wrap(x + (q - 1) * n, n);
    }
  }

  /** Stepping on by `k` from `n` stays in the same round of `m`, or ends it. */
  lemma Onward(n: nat, k: nat, m: nat)
    requires m > 0
    ensures n % m + k < m ==> (n + k) % m == n % m + k
    ensures n % m + k == m ==> (n + k) % m == 0
  {
    AddModulo(n, k, m);
    if n % m + k < m {
      Divided(0, n % m + k, m);
    } else if n % m + k == m {
      Divided(1, 0, m);
    }
  }
}
