/** Graphs in which a node has at most one outgoing edge, and their simple cycles. */
module WaitForGraph {

  datatype LockRef = LockRef(id: string, cls: string, op: string)

  /** One wait-for edge: the thread waited for, and the lock it holds. */
  datatype Edge = Edge(to: string, lock: LockRef)

  type Graph = map<string, Edge>

  /** All nodes, whether they wait for something or only hold something. */
  function Nodes(w: Graph): set<string> {
    w.Keys + set n | n in w :: w[n].to
  }

  ghost predicate NoSelfEdge(w: Graph) {
    forall n :: n in w ==> w[n].to != n
  }

  predicate Distinct(c: seq<string>) {
    forall i, j :: 0 <= i < j < |c| ==> c[i] != c[j]
  }

  function Next(c: seq<string>, i: nat): string
    requires i < |c|
  {
    if i + 1 == |c| then c[0] else c[i + 1]
  }

  ghost predicate Leads(w: Graph, a: string, b: string) {
    a in w && w[a].to == b
  }

  ghost predicate LeadsOn(w: Graph, c: seq<string>, i: nat)
    requires i < |c|
  {
    Leads(w, c[i], Next(c, i))
  }

  /** `c` lists, in edge order, the nodes of one simple cycle. */
  ghost predicate IsCycle(w: Graph, c: seq<string>) {
    && |c| >= 1
    && Distinct(c)
    && forall i {:trigger LeadsOn(w, c, i)} :: 0 <= i < |c| ==> LeadsOn(w, c, i)
  }

  /** `p` follows edges from its first node to its last. */
  ghost predicate IsWalk(w: Graph, p: seq<string>) {
    forall i {:trigger LeadsOn(w, p, i)} :: 0 <= i < |p| - 1 ==> LeadsOn(w, p, i)
  }

  /** No edge leaves `done`. */
  ghost predicate Closed(w: Graph, done: set<string>) {
    forall n :: n in done && n in w ==> w[n].to in done
  }

  function Rot(c: seq<string>, r: nat): seq<string>
    requires r <= |c|
  {
    c[r..] + c[..r]
  }

  /** `d` is `c` started at another node. */
  ghost predicate Rotation(c: seq<string>, d: seq<string>) {
    exists r :: 0 <= r < |c| && d == Rot(c, r)
  }

  lemma RotOfRot(c: seq<string>, a: nat, b: nat)
    requires a < |c| && b < |c|
    ensures Rot(Rot(c, a), b) == Rot(c, if a + b < |c| then a + b else a + b - |c|)
  {
  }

  lemma RotIsCycle(w: Graph, c: seq<string>, r: nat)
    requires IsCycle(w, c) && r < |c|
    ensures IsCycle(w, Rot(c, r))
  {
    var d := Rot(c, r);
    assert Distinct(d) by {
      forall i, j | 0 <= i < j < |d| ensures d[i] != d[j] {
        var x := if r + i < |c| then r + i else r + i - |c|;
        var y := if r + j < |c| then r + j else r + j - |c|;
        assert d[i] == c[x] && d[j] == c[y];
      }
    }
    forall i | 0 <= i < |d|
      ensures LeadsOn(w, d, i)
    {
      var j := if r + i < |c| then r + i else r + i - |c|;
      assert LeadsOn(w, c, j);
      assert d[i] == c[j];
      assert Next(d, i) == Next(c, j);
    }
  }

  /** Two rotations that agree are rotations of one another. */
  lemma RotationFromCommon(c: seq<string>, i: nat, d: seq<string>, j: nat)
    requires i < |c| && j < |d| && Rot(c, i) == Rot(d, j)
    ensures Rotation(c, d)
  {
    var n := |c|;
    assert |Rot(c, i)| == |c| && |Rot(d, j)| == |d|;
    if j == 0 {
      assert Rot(d, 0) == d;
    } else {
      RotOfRot(d, j, n - j);
      assert Rot(d, 0) == d;
      RotOfRot(c, i, n - j);
    }
  }

  lemma RotationSymmetric(c: seq<string>, d: seq<string>)
    requires Rotation(c, d)
    ensures Rotation(d, c)
  {
    var r :| 0 <= r < |c| && d == Rot(c, r);
    assert Rot(d, 0) == d;
    RotationFromCommon(d, 0, c, r);
  }

  lemma RotationTransitive(c: seq<string>, d: seq<string>, e: seq<string>)
    requires Rotation(c, d) && Rotation(d, e)
    ensures Rotation(c, e)
  {
    var r :| 0 <= r < |c| && d == Rot(c, r);
    var s :| 0 <= s < |d| && e == Rot(d, s);
    RotOfRot(c, r, s);
  }

  /** With out-degree at most one, two cycles through one node are the same cycle. */
  lemma SharedNode(w: Graph, c: seq<string>, i: nat, d: seq<string>, j: nat)
    requires IsCycle(w, c) && IsCycle(w, d)
    requires i < |c| && j < |d| && c[i] == d[j]
    ensures Rotation(c, d)
  {
    RotIsCycle(w, c, i);
    RotIsCycle(w, d, j);
    SameStart(w, Rot(c, i), Rot(d, j));
    RotationFromCommon(c, i, d, j);
  }

  lemma SameStart(w: Graph, c: seq<string>, d: seq<string>)
    requires IsCycle(w, c) && IsCycle(w, d) && c[0] == d[0]
    ensures c == d
  {
    NotLonger(w, c, d);
    NotLonger(w, d, c);
    SamePrefix(w, c, d, |c|);
    assert c == c[..|c|] && d == d[..|d|];
  }

  lemma NotLonger(w: Graph, c: seq<string>, d: seq<string>)
    requires IsCycle(w, c) && IsCycle(w, d) && c[0] == d[0]
    ensures |d| <= |c|
  {
    if |c| <= |d| {
      var last := |c| - 1;
      SamePrefix(w, c, d, |c|);
      assert c[last] == c[..|c|][last] == d[..|c|][last] == d[last];
      assert LeadsOn(w, c, last) && LeadsOn(w, d, last);
    }
  }

  lemma {:induction false} SamePrefix(w: Graph, c: seq<string>, d: seq<string>, n: nat)
    requires IsCycle(w, c) && IsCycle(w, d) && c[0] == d[0]
    requires n <= |c| && n <= |d|
    ensures c[..n] == d[..n]
  {
    if n >= 2 {
      SamePrefix(w, c, d, n - 1);
      assert c[n - 2] == c[..n - 1][n - 2] == d[..n - 1][n - 2] == d[n - 2];
      assert LeadsOn(w, c, n - 2) && LeadsOn(w, d, n - 2);
      assert c[n - 1] == Next(c, n - 2) == Next(d, n - 2) == d[n - 1];
      assert c[..n] == c[..n - 1] + [c[n - 1]];
      assert d[..n] == d[..n - 1] + [d[n - 1]];
    } else if n == 1 {
      assert c[..1] == [c[0]] && d[..1] == [d[0]];
    }
  }

  /** A cycle that meets a closed set lies inside it. */
  lemma {:induction false} CycleStaysInClosed(w: Graph, c: seq<string>, done: set<string>, i: nat, j: nat)
    requires IsCycle(w, c) && Closed(w, done)
    requires i < |c| && c[i] in done && j < |c|
    ensures c[j] in done
    decreases if i <= j then j - i else |c| - i + j
  {
    if i != j {
      var k := if i + 1 == |c| then 0 else i + 1;
      assert LeadsOn(w, c, i);
      CycleStaysInClosed(w, c, done, k, j);
    }
  }

  /** A walk that enters a cycle never leaves it. */
  lemma {:induction false} WalkStaysOnCycle(w: Graph, c: seq<string>, p: seq<string>, a: nat, b: nat) returns (k: nat)
    requires IsCycle(w, c) && IsWalk(w, p)
    requires a <= b < |p| && p[a] in c
    ensures k < |c| && p[b] == c[k]
    decreases b
  {
    if a == b {
      k :| 0 <= k < |c| && c[k] == p[b];
    } else {
      var j := WalkStaysOnCycle(w, c, p, a, b - 1);
      assert LeadsOn(w, c, j) && LeadsOn(w, p, b - 1);
      k := if j + 1 == |c| then 0 else j + 1;
    }
  }
}
