/** The text key under which rotations of one cycle are collapsed. */
module CycleKey {
  import opened WaitForGraph

  const ARROW: char := '\U{2192}'

  /** Go's `<` on strings. */
  predicate LexLess(a: string, b: string) {
    b != [] && (a == [] || a[0] < b[0] || (a[0] == b[0] && LexLess(a[1..], b[1..])))
  }

  lemma {:induction false} LexTotal(a: string, b: string)
    ensures LexLess(a, b) || LexLess(b, a) || a == b
  {
    if a != [] && b != [] && a[0] == b[0] {
      LexTotal(a[1..], b[1..]);
      assert a[1..] == b[1..] ==> a == [a[0]] + b[1..];
    }
  }

  lemma {:induction false} LexTransitive(a: string, b: string, c: string)
    requires LexLess(a, b) && LexLess(b, c)
    ensures LexLess(a, c)
  {
    if a != [] && a[0] == b[0] && b[0] == c[0] {
      LexTransitive(a[1..], b[1..], c[1..]);
    }
  }

  lemma {:induction false} LexIrreflexive(a: string)
    ensures !LexLess(a, a)
  {
    if a != [] {
      LexIrreflexive(a[1..]);
    }
  }

  /** No name sorts before the one at `m`. */
  ghost predicate IsLeast(names: seq<string>, m: nat) {
    m < |names| && forall j :: 0 <= j < |names| ==> !LexLess(names[j], names[m])
  }

  /** The least of the first `n` names, as the running minimum finds it. */
  function LeastIndex(names: seq<string>, n: nat): (m: nat)
    requires 1 <= n <= |names|
    ensures m < n
  {
    if n == 1 then 0
    else
      var m := LeastIndex(names, n - 1);
      if LexLess(names[n - 1], names[m]) then n - 1 else m
  }

  lemma {:induction false} LeastIndexIsLeast(names: seq<string>, n: nat, j: nat)
    requires 1 <= n <= |names| && j < n
    ensures !LexLess(names[j], names[LeastIndex(names, n)])
  {
    LexIrreflexive(names[n - 1]);
    if n > 1 && j < n - 1 {
      LeastIndexIsLeast(names, n - 1, j);
      var m := LeastIndex(names, n - 1);
      if LexLess(names[n - 1], names[m]) && LexLess(names[j], names[n - 1]) {
        LexTransitive(names[j], names[n - 1], names[m]);
      }
    }
  }

  function Join(names: seq<string>): string {
    if names == [] then ""
    else if |names| == 1 then names[0]
    else names[0] + [ARROW] + Join(names[1..])
  }

  function Key(names: seq<string>): string {
    if names == [] then "" else Join(Rot(names, LeastIndex(names, |names|)))
  }

  method CanonicalCycleKey(names: seq<string>) returns (k: string)
    ensures k == Key(names)
  {
    if names == [] {
      return "";
    }
    var minIdx := 0;
    for i := 1 to |names|
      invariant minIdx == LeastIndex(names, i)
    {
      if LexLess(names[i], names[minIdx]) {
        minIdx := i;
      }
    }
    k := Join(Rot(names, minIdx));
  }

  lemma KeyIsLeastRotation(names: seq<string>) returns (m: nat)
    requires names != []
    ensures IsLeast(names, m) && Key(names) == Join(Rot(names, m))
  {
    m := LeastIndex(names, |names|);
    forall j | 0 <= j < |names| ensures !LexLess(names[j], names[m]) {
      LeastIndexIsLeast(names, |names|, j);
    }
  }

  lemma LeastIsUnique(names: seq<string>, m: nat, n: nat)
    requires Distinct(names) && IsLeast(names, m) && IsLeast(names, n)
    ensures m == n
  {
    LexTotal(names[m], names[n]);
  }

  lemma LeastOfRotation(c: seq<string>, r: nat, m: nat)
    requires r < |c| && IsLeast(Rot(c, r), m)
    ensures IsLeast(c, if r + m < |c| then r + m else r + m - |c|)
  {
    var d := Rot(c, r);
    var x := if r + m < |c| then r + m else r + m - |c|;
    assert d[m] == c[x];
    forall j | 0 <= j < |c| ensures !LexLess(c[j], c[x]) {
      var i := if j >= r then j - r else |c| - r + j;
      assert d[i] == c[j];
    }
  }

  /** All rotations of one cycle have one and the same key. */
  lemma RotationsShareKey(c: seq<string>, d: seq<string>)
    requires Distinct(c) && Rotation(c, d)
    ensures Key(c) == Key(d)
  {
    var r :| 0 <= r < |c| && d == Rot(c, r);
    var m := KeyIsLeastRotation(c);
    var n := KeyIsLeastRotation(d);
    LeastOfRotation(c, r, n);
    LeastIsUnique(c, m, if r + n < |c| then r + n else r + n - |c|);
    RotOfRot(c, r, n);
  }

  ghost predicate ArrowFree(names: seq<string>) {
    forall i :: 0 <= i < |names| ==> ARROW !in names[i]
  }

  lemma NotShorter(a: string, s: string, b: string, t: string)
    requires ARROW !in b && a + [ARROW] + s == b + [ARROW] + t
    ensures |b| <= |a|
  {
    if |a| <= |b| {
      assert ARROW == (a + [ARROW] + s)[|a|] == (b + [ARROW] + t)[|a|];
    }
  }

  lemma HeadBeforeArrow(a: string, s: string, b: string, t: string)
    requires ARROW !in a && ARROW !in b
    requires a + [ARROW] + s == b + [ARROW] + t
    ensures a == b && s == t
  {
    var x, y := a + [ARROW] + s, b + [ARROW] + t;
    NotShorter(a, s, b, t);
    NotShorter(b, t, a, s);
    assert x[..|a|] == a && y[..|b|] == b;
    assert x[|a| + 1..] == s && y[|b| + 1..] == t;
  }

  /** Without arrows in the names the joined text determines the list. */
  lemma {:induction false} JoinInjective(a: seq<string>, b: seq<string>)
    requires ArrowFree(a) && ArrowFree(b) && a != [] && b != []
    requires Join(a) == Join(b)
    ensures a == b
  {
    if |a| > 1 && |b| > 1 {
      HeadBeforeArrow(a[0], Join(a[1..]), b[0], Join(b[1..]));
      JoinInjective(a[1..], b[1..]);
      assert a == [a[0]] + a[1..] && b == [b[0]] + b[1..];
    } else if |a| > 1 {
      assert false;
    } else if |b| > 1 {
      assert false;
    } else {
      assert a == [a[0]] && b == [b[0]];
    }
  }

  /** Arrow-free cycles with one key are rotations of each other. */
  lemma ArrowFreeKeysSeparate(c: seq<string>, d: seq<string>)
    requires ArrowFree(c) && ArrowFree(d) && c != [] && d != []
    requires Key(c) == Key(d)
    ensures Rotation(c, d)
  {
    var m := KeyIsLeastRotation(c);
    var n := KeyIsLeastRotation(d);
    JoinInjective(Rot(c, m), Rot(d, n));
    RotationFromCommon(c, m, d, n);
  }
}
