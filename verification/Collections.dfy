/** Small facts about options, sets, maps and strings used throughout. */
module Collections {

  datatype Option<T> = None | Some(value: T)

  lemma {:induction false} SubsetSize<T>(a: set<T>, b: set<T>)
    requires a <= b
    ensures |a| <= |b|
  {
    if a != {} {
      var x :| x in a;
      SubsetSize(a - {x}, b - {x});
    }
  }

  lemma AddKey<K, V>(m: map<K, V>, k: K, v: V)
    ensures |m[k := v]| == |m| + if k in m then 0 else 1
  {
  }

  lemma DropKey<K, V>(m: map<K, V>, k: K)
    requires k in m
    ensures |m - {k}| == |m| - 1
  {
  }

  /** The first occurrence of a separator splits a text in one way only. */
  lemma FirstSplit(a: string, b: string, c: string, d: string, at: char)
    requires at !in a && at !in c && a + [at] + b == c + [at] + d
    ensures a == c && b == d
  {
    var s := a + [at] + b;
    assert s[|a|] == at && s[|c|] == at;
    forall k | 0 <= k < |a| ensures s[k] != at {
      assert s[k] == a[k];
    }
    forall k | 0 <= k < |c| ensures s[k] != at {
      assert s[k] == c[k];
    }
    assert a == s[..|a|] && c == s[..|c|];
    assert b == s[|a| + 1..] && d == s[|c| + 1..];
  }
}
