/** Decimal digits of natural numbers, most significant first. */
module Decimal {

  ghost predicate AreDigits(d: seq<int>) {
    forall i :: 0 <= i < |d| ==> 0 <= d[i] <= 9
  }

  function Digits(n: nat): (d: seq<int>)
    ensures |d| > 0 && AreDigits(d)
  {
    if n < 10 then [n] else Digits(n / 10) + [n % 10]
  }

  function Value(d: seq<int>): int {
    if d == [] then 0 else Value(d[..|d| - 1]) * 10 + d[|d| - 1]
  }

  lemma {:induction false} ValueOfDigits(n: nat)
    ensures Value(Digits(n)) == n
  {
    if n < 10 {
      assert [n][..0] == [];
    } else {
      ValueOfDigits(n / 10);
      assert Digits(n)[..|Digits(n)| - 1] == Digits(n / 10);
    }
  }

  function Power(k: nat): nat {
    if k == 0 then 1 else 10 * Power(k - 1)
  }

  lemma {:induction false} DigitCount(n: nat, k: nat)
    requires n < Power(k) && k > 0
    ensures |Digits(n)| <= k
  {
    assert Power(k) == 10 * Power(k - 1);
    if n >= 10 {
      DigitCount(n / 10, k - 1);
    }
  }

  const MIN_INT64 := -0x8000_0000_0000_0000
  const MAX_INT64 := 0x7FFF_FFFF_FFFF_FFFF

  type int64 = n: int | MIN_INT64 <= n <= MAX_INT64

  lemma Int64Digits(n: nat)
    requires n <= -MIN_INT64
    ensures |Digits(n)| <= 19
  {
    assert Power(5) == 100000 by {
      assert Power(1) == 10 && Power(2) == 100 && Power(3) == 1000 && Power(4) == 10000;
    }
    assert Power(10) == 10000000000 by {
      assert Power(6) == 1000000 && Power(7) == 10000000 && Power(8) == 100000000 && Power(9) == 1000000000;
    }
    assert Power(15) == 1000000000000000 by {
      assert Power(11) == 100000000000 && Power(12) == 1000000000000 && Power(13) == 10000000000000
             && Power(14) == 100000000000000;
    }
    assert Power(19) == 10000000000000000000 by {
      assert Power(16) == 10000000000000000 && Power(17) == 100000000000000000 && Power(18) == 1000000000000000000;
    }
    DigitCount(n, 19);
  }
}
