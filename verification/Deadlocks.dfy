/** The deadlock search over a parsed thread dump. */
module Deadlocks {
  import opened WaitForGraph
  import opened CycleKey

  datatype Thread = Thread(name: string, locks: seq<LockRef>)

  datatype DeadlockCycle = DeadlockCycle(threads: seq<string>, locks: seq<LockRef>)

  const NO_LOCK := LockRef("", "", "")

  predicate IsWaitOp(op: string) {
    op == "waiting to lock" || op == "parking to wait for" || op == "waiting on"
  }

  /** The first lock the thread is blocked or parked on, or the empty lock. */
  function WaitingOn(locks: seq<LockRef>): LockRef {
    if locks == [] then NO_LOCK
    else if IsWaitOp(locks[0].op) then locks[0]
    else WaitingOn(locks[1..])
  }

  /** Entry `i` is the first that says the thread waits, in one of the dump's three ways of saying so. */
  ghost predicate FirstWait(locks: seq<LockRef>, i: nat) {
    && i < |locks| && locks[i].op in {"waiting to lock", "parking to wait for", "waiting on"}
    && forall j :: 0 <= j < i ==> locks[j].op !in {"waiting to lock", "parking to wait for", "waiting on"}
  }

  /** The lock a thread waits on is that of its first wait; a thread without one waits on none. */
  lemma {:induction false} WaitingOnMeaning(locks: seq<LockRef>)
    ensures forall i: nat :: FirstWait(locks, i) ==> WaitingOn(locks) == locks[i]
    ensures (forall i: nat :: !FirstWait(locks, i)) ==> WaitingOn(locks) == NO_LOCK
  {
    if locks != [] {
      var rest := locks[1..];
      WaitingOnMeaning(rest);
      if !IsWaitOp(locks[0].op) {
        forall i: nat ensures FirstWait(locks, i + 1) <==> FirstWait(rest, i) {
          assert i < |rest| ==> rest[i] == locks[i + 1];
          if FirstWait(rest, i) {
            forall j | 0 <= j < i + 1 ensures locks[j].op !in {"waiting to lock", "parking to wait for", "waiting on"} {
              if j > 0 {
                assert rest[j - 1] == locks[j];
              }
            }
          }
          if FirstWait(locks, i + 1) {
            forall j | 0 <= j < i ensures rest[j].op !in {"waiting to lock", "parking to wait for", "waiting on"} {
              assert rest[j] == locks[j + 1];
            }
          }
        }
        forall i: nat | FirstWait(locks, i) ensures i > 0 && FirstWait(rest, i - 1) {
        }
      } else {
        assert FirstWait(locks, 0);
      }
    }
  }

  predicate HoldsLock(t: Thread, id: string) {
    exists l :: l in t.locks && l.op == "locked" && l.id == id
  }

  /** Of the first `n` threads, the last that holds `id` is called `name`. */
  ghost predicate IsHolder(threads: seq<Thread>, n: nat, id: string, name: string)
    requires n <= |threads|
  {
    exists i :: IsHolderAt(threads, n, id, name, i)
  }

  ghost predicate IsHolderAt(threads: seq<Thread>, n: nat, id: string, name: string, i: nat)
    requires n <= |threads|
  {
    && i < n && HoldsLock(threads[i], id) && threads[i].name == name
    && forall j :: i < j < n ==> !HoldsLock(threads[j], id)
  }

  /** `t` waits on a lock that another name holds, and `e` is that wait. */
  ghost predicate WaitsBy(threads: seq<Thread>, t: Thread, e: Edge) {
    && WaitingOn(t.locks) == e.lock && e.lock.id != ""
    && IsHolder(threads, |threads|, e.lock.id, e.to) && e.to != t.name
  }

  ghost predicate NeverWaits(threads: seq<Thread>, t: Thread) {
    forall e :: !WaitsBy(threads, t, e)
  }

  /** Among the first `n` threads, the last wait of one called `name` is `e`. */
  ghost predicate IsWait(threads: seq<Thread>, n: nat, name: string, e: Edge)
    requires n <= |threads|
  {
    exists i :: IsWaitAt(threads, n, name, e, i)
  }

  ghost predicate IsWaitAt(threads: seq<Thread>, n: nat, name: string, e: Edge, i: nat)
    requires n <= |threads|
  {
    && i < n && threads[i].name == name && WaitsBy(threads, threads[i], e)
    && forall j :: i < j < n && threads[j].name == name ==> NeverWaits(threads, threads[j])
  }

  /** The holder map after the first `n` lock entries of a thread called `name`. */
  function HeldBy(locks: seq<LockRef>, n: nat, name: string, m: map<string, string>): map<string, string>
    requires n <= |locks|
  {
    if n == 0 then m
    else
      var was := HeldBy(locks, n - 1, name, m);
      if locks[n - 1].op == "locked" then was[locks[n - 1].id := name] else was
  }

  function Holders(threads: seq<Thread>, n: nat): map<string, string>
    requires n <= |threads|
  {
    if n == 0 then map[]
    else HeldBy(threads[n - 1].locks, |threads[n - 1].locks|, threads[n - 1].name, Holders(threads, n - 1))
  }

  /** The wait-for edges after the first `n` threads. */
  function Waits(threads: seq<Thread>, n: nat): Graph
    requires n <= |threads|
  {
    if n == 0 then map[]
    else
      var was := Waits(threads, n - 1);
      var holder := Holders(threads, |threads|);
      var t, lock := threads[n - 1], WaitingOn(threads[n - 1].locks);
      if lock.id == "" || lock.id !in holder || holder[lock.id] == t.name then was
      else was[t.name := Edge(holder[lock.id], lock)]
  }

  function WaitGraph(threads: seq<Thread>): Graph {
    Waits(threads, |threads|)
  }

  lemma {:induction false} HeldByMeaning(locks: seq<LockRef>, n: nat, name: string, m: map<string, string>, id: string)
    requires n <= |locks|
    ensures var h := HeldBy(locks, n, name, m);
            if exists l :: 0 <= l < n && locks[l].op == "locked" && locks[l].id == id
            then id in h && h[id] == name
            else (id in h <==> id in m) && (id in m ==> h[id] == m[id])
  {
    if n > 0 {
      HeldByMeaning(locks, n - 1, name, m, id);
    }
  }

  lemma {:induction false} HoldersMeaning(threads: seq<Thread>, n: nat, id: string)
    requires n <= |threads|
    ensures id in Holders(threads, n) ==> IsHolder(threads, n, id, Holders(threads, n)[id])
    ensures id in Holders(threads, n) <==> exists i :: 0 <= i < n && HoldsLock(threads[i], id)
  {
    if n > 0 {
      var t := threads[n - 1];
      HoldersMeaning(threads, n - 1, id);
      HeldByMeaning(t.locks, |t.locks|, t.name, Holders(threads, n - 1), id);
      if HoldsLock(t, id) {
        var l :| l in t.locks && l.op == "locked" && l.id == id;
        var k :| 0 <= k < |t.locks| && t.locks[k] == l;
        assert IsHolderAt(threads, n, id, t.name, n - 1);
      } else if id in Holders(threads, n - 1) {
        var i :| IsHolderAt(threads, n - 1, id, Holders(threads, n - 1)[id], i);
        assert IsHolderAt(threads, n, id, Holders(threads, n - 1)[id], i);
      }
    }
  }

  lemma HolderUnique(threads: seq<Thread>, n: nat, id: string, a: string, b: string)
    requires n <= |threads| && IsHolder(threads, n, id, a) && IsHolder(threads, n, id, b)
    ensures a == b
  {
  }

  lemma WaitsByMeaning(threads: seq<Thread>, t: Thread)
    ensures var holder, lock := Holders(threads, |threads|), WaitingOn(t.locks);
            if lock.id == "" || lock.id !in holder || holder[lock.id] == t.name
            then NeverWaits(threads, t)
            else (WaitsBy(threads, t, Edge(holder[lock.id], lock))
                  && forall e :: WaitsBy(threads, t, e) ==> e == Edge(holder[lock.id], lock))
  {
    var holder, lock := Holders(threads, |threads|), WaitingOn(t.locks);
    HoldersMeaning(threads, |threads|, lock.id);
    forall e | WaitsBy(threads, t, e)
      ensures lock.id in holder && e == Edge(holder[lock.id], lock)
    {
      var i :| IsHolderAt(threads, |threads|, lock.id, e.to, i);
      HolderUnique(threads, |threads|, lock.id, e.to, holder[lock.id]);
    }
  }

  /** The graph the search runs on is the wait-for graph of the dump, edge for edge. */
  lemma {:induction false} WaitsMeaning(threads: seq<Thread>, n: nat, name: string)
    requires n <= |threads|
    ensures name in Waits(threads, n) ==> IsWait(threads, n, name, Waits(threads, n)[name])
    ensures name !in Waits(threads, n) ==>
              forall i :: 0 <= i < n && threads[i].name == name ==> NeverWaits(threads, threads[i])
  {
    if n > 0 {
      hide HoldsLock, WaitingOn, IsHolder;
      var t, was := threads[n - 1], Waits(threads, n - 1);
      WaitsMeaning(threads, n - 1, name);
      WaitsByMeaning(threads, t);
      if t.name == name && !NeverWaits(threads, t) {
        assert IsWaitAt(threads, n, name, Waits(threads, n)[name], n - 1);
      } else if name in was {
        var i :| IsWaitAt(threads, n - 1, name, was[name], i);
        assert IsWaitAt(threads, n, name, was[name], i);
      }
    }
  }

  lemma {:induction false} NoSelfWait(threads: seq<Thread>, n: nat)
    requires n <= |threads|
    ensures NoSelfEdge(Waits(threads, n))
  {
    if n > 0 {
      NoSelfWait(threads, n - 1);
    }
  }

  method HolderByLock(threads: seq<Thread>) returns (holder: map<string, string>)
    ensures holder == Holders(threads, |threads|)
  {
    holder := map[];
    for i := 0 to |threads|
      invariant holder == Holders(threads, i)
    {
      for k := 0 to |threads[i].locks|
        invariant holder == HeldBy(threads[i].locks, k, threads[i].name, Holders(threads, i))
      {
        if threads[i].locks[k].op == "locked" {
          holder := holder[threads[i].locks[k].id := threads[i].name];
        }
      }
    }
  }

  method WaitForGraphOf(threads: seq<Thread>) returns (wait: Graph)
    ensures wait == WaitGraph(threads)
  {
    var holder := HolderByLock(threads);
    wait := map[];
    for i := 0 to |threads|
      invariant wait == Waits(threads, i)
    {
      var lock := WaitingOn(threads[i].locks);
      if lock.id != "" && lock.id in holder && holder[lock.id] != threads[i].name {
        wait := wait[threads[i].name := Edge(holder[lock.id], lock)];
      }
    }
  }

  /** The threads form a cycle of waits, and each lock is the one its thread waits on. */
  ghost predicate IsDeadlock(w: Graph, c: DeadlockCycle) {
    IsCycle(w, c.threads) && AreLocksOf(w, c.threads, c.locks)
  }

  ghost predicate AreLocksOf(w: Graph, names: seq<string>, locks: seq<LockRef>) {
    && |locks| == |names|
    && forall i :: 0 <= i < |names| ==> names[i] in w && locks[i] == w[names[i]].lock
  }

  ghost predicate Reported(cycles: seq<DeadlockCycle>, c: seq<string>) {
    exists k :: 0 <= k < |cycles| && Rotation(c, cycles[k].threads)
  }

  ghost predicate Disjoint(cycles: seq<DeadlockCycle>) {
    forall k, l :: 0 <= k < l < |cycles| ==> Elements(cycles[k].threads) !! Elements(cycles[l].threads)
  }

  /** What the search has established about the nodes it marked done. */
  ghost predicate Explored(w: Graph, done: set<string>, cycles: seq<DeadlockCycle>) {
    Closed(w, done) && SoundIn(w, done, cycles) && CompleteIn(w, done, cycles)
  }

  ghost predicate SoundIn(w: Graph, done: set<string>, cycles: seq<DeadlockCycle>) {
    && (forall k :: 0 <= k < |cycles| ==> IsDeadlock(w, cycles[k]) && Elements(cycles[k].threads) <= done)
    && Disjoint(cycles)
  }

  ghost predicate CompleteIn(w: Graph, done: set<string>, cycles: seq<DeadlockCycle>) {
    forall c :: IsCycle(w, c) && c[0] in done ==> Reported(cycles, c)
  }

  function Elements(p: seq<string>): set<string> {
    set n | n in p
  }

  /** A fresh walk from unmarked nodes, about to step to `cur`. */
  ghost predicate FreshWalk(w: Graph, done: set<string>, path: seq<string>, cur: string) {
    && Distinct(path) && IsWalk(w, path)
    && (forall n :: n in path ==> n !in done)
    && (path != [] ==> Leads(w, path[|path| - 1], cur))
  }

  /** A walk that runs out, or into explored ground, passes through no cycle. */
  lemma DeadEnd(w: Graph, done: set<string>, cycles: seq<DeadlockCycle>, path: seq<string>)
    requires Explored(w, done, cycles)
    requires Distinct(path) && IsWalk(w, path) && path != []
    requires forall n :: n in path ==> n !in done
    requires var last := path[|path| - 1]; last in w ==> w[last].to in done
    ensures Explored(w, done + Elements(path), cycles)
  {
    var last := path[|path| - 1];
    var all := done + Elements(path);
    forall c | IsCycle(w, c) && c[0] in all
      ensures Reported(cycles, c)
    {
      if c[0] !in done {
        var a :| 0 <= a < |path| && path[a] == c[0];
        var k := WalkStaysOnCycle(w, c, path, a, |path| - 1);
        assert LeadsOn(w, c, k);
        var next := if k + 1 == |c| then 0 else k + 1;
        CycleStaysInClosed(w, c, done, next, 0);
      }
    }
    WalkCloses(w, done, path);
  }

  lemma WalkCloses(w: Graph, done: set<string>, path: seq<string>)
    requires Closed(w, done) && IsWalk(w, path) && path != []
    requires var last := path[|path| - 1]; last in w ==> w[last].to in done + Elements(path)
    ensures Closed(w, done + Elements(path))
  {
    forall n | n in done + Elements(path) && n in w
      ensures w[n].to in done + Elements(path)
    {
      if n !in done {
        var i :| 0 <= i < |path| && path[i] == n;
        if i < |path| - 1 {
          assert LeadsOn(w, path, i);
          assert path[i + 1] in path;
        }
      }
    }
  }

  /** A walk that returns to its own node `idx` has found exactly one new cycle. */
  lemma FoundCycle(w: Graph, done: set<string>, cycles: seq<DeadlockCycle>,
                   path: seq<string>, idx: nat, found: DeadlockCycle)
    requires Explored(w, done, cycles)
    requires idx < |path| && FreshWalk(w, done, path, path[idx])
    requires found.threads == path[idx..] && AreLocksOf(w, found.threads, found.locks)
    ensures Explored(w, done + Elements(path), cycles + [found])
  {
    TailIsCycle(w, path, idx);
    assert path[idx] in path;
    WalkCloses(w, done, path);
    FoundIsNew(w, done, cycles, path, idx, found);
    FoundIsOnly(w, done, cycles, path, idx, found);
  }

  lemma FoundIsOnly(w: Graph, done: set<string>, cycles: seq<DeadlockCycle>,
                    path: seq<string>, idx: nat, found: DeadlockCycle)
    requires CompleteIn(w, done, cycles) && IsWalk(w, path)
    requires idx < |path| && found.threads == path[idx..] && IsCycle(w, found.threads)
    ensures CompleteIn(w, done + Elements(path), cycles + [found])
  {
    var more := cycles + [found];
    forall c | IsCycle(w, c) && c[0] in done + Elements(path)
      ensures Reported(more, c)
    {
      if c[0] in done {
        var k :| 0 <= k < |cycles| && Rotation(c, cycles[k].threads);
        assert more[k] == cycles[k];
      } else {
        var a :| 0 <= a < |path| && path[a] == c[0];
        var k := WalkStaysOnCycle(w, c, path, a, |path| - 1);
        SharedNode(w, c, k, found.threads, |found.threads| - 1);
        assert more[|cycles|] == found;
      }
    }
  }

  lemma FoundIsNew(w: Graph, done: set<string>, cycles: seq<DeadlockCycle>,
                   path: seq<string>, idx: nat, found: DeadlockCycle)
    requires SoundIn(w, done, cycles) && IsDeadlock(w, found)
    requires forall n :: n in path ==> n !in done
    requires idx < |path| && found.threads == path[idx..]
    ensures SoundIn(w, done + Elements(path), cycles + [found])
  {
  }

  lemma TailIsCycle(w: Graph, path: seq<string>, idx: nat)
    requires idx < |path| && Distinct(path) && IsWalk(w, path)
    requires Leads(w, path[|path| - 1], path[idx])
    ensures IsCycle(w, path[idx..])
  {
    var c := path[idx..];
    forall i | 0 <= i < |c| ensures LeadsOn(w, c, i) {
      if i + 1 < |c| {
        assert LeadsOn(w, path, idx + i);
      }
    }
  }

  datatype Mark = OnStack | Done

  method MarkDone(path: seq<string>, mark: map<string, Mark>) returns (out: map<string, Mark>)
    requires forall n :: n in path ==> n in mark
    ensures out.Keys == mark.Keys
    ensures forall n :: n in mark ==> out[n] == if n in path then Done else mark[n]
  {
    out := mark;
    for i := 0 to |path|
      invariant out.Keys == mark.Keys
      invariant forall n :: n in mark ==> out[n] == if n in path[..i] then Done else mark[n]
    {
      out := out[path[i] := Done];
    }
    assert path[..|path|] == path;
  }

  ghost predicate AllDone(mark: map<string, Mark>) {
    forall n :: n in mark ==> mark[n] == Done
  }

  method LocksOf(w: Graph, cycle: seq<string>) returns (locks: seq<LockRef>)
    requires forall n :: n in cycle ==> n in w
    ensures AreLocksOf(w, cycle, locks)
  {
    locks := [];
    for i := 0 to |cycle|
      invariant |locks| == i
      invariant forall k :: 0 <= k < i ==> locks[k] == w[cycle[k]].lock
    {
      locks := locks + [w[cycle[i]].lock];
    }
  }

  /** The local state of a walk: which nodes are on the path, where, and how they are marked. */
  ghost predicate OnWalk(w: Graph, done: set<string>, path: seq<string>, cur: string,
                         seenIdx: map<string, nat>, mark: map<string, Mark>)
  {
    && FreshWalk(w, done, path, cur)
    && cur in Nodes(w) && mark.Keys <= Nodes(w)
    && mark.Keys == done + Elements(path)
    && (forall n :: n in done ==> mark[n] == Done)
    && seenIdx.Keys == Elements(path)
    && (forall n :: n in seenIdx ==> seenIdx[n] < |path| && path[seenIdx[n]] == n)
  }

  ghost predicate AtDeadEnd(w: Graph, done: set<string>, path: seq<string>, mark: map<string, Mark>) {
    && path != [] && Distinct(path) && IsWalk(w, path)
    && (forall n :: n in path ==> n !in done)
    && (var last := path[|path| - 1]; last in w ==> w[last].to in done)
    && mark.Keys == done + Elements(path)
    && (forall n :: n in done ==> mark[n] == Done)
  }

  lemma Extend(w: Graph, done: set<string>, path: seq<string>, cur: string,
               seenIdx: map<string, nat>, mark: map<string, Mark>)
    requires OnWalk(w, done, path, cur, seenIdx, mark) && cur !in mark
    ensures var p, m := path + [cur], mark[cur := OnStack];
            if cur in w then OnWalk(w, done, p, w[cur].to, seenIdx[cur := |path|], m)
            else AtDeadEnd(w, done, p, m)
  {
    var p := path + [cur];
    forall i | 0 <= i < |p| - 1 ensures LeadsOn(w, p, i) {
      if i < |path| - 1 {
        assert LeadsOn(w, path, i);
      }
    }
    assert cur !in Elements(path) && Elements(p) == Elements(path) + {cur};
    assert p[|path|] == cur;
  }

  lemma RanIntoDone(w: Graph, done: set<string>, path: seq<string>, cur: string,
                    seenIdx: map<string, nat>, mark: map<string, Mark>)
    requires OnWalk(w, done, path, cur, seenIdx, mark)
    requires path != [] && cur in mark && cur !in seenIdx
    ensures AtDeadEnd(w, done, path, mark)
  {
  }

  lemma WalkInGraph(w: Graph, path: seq<string>, idx: nat)
    requires idx < |path| && IsWalk(w, path) && path[|path| - 1] in w
    ensures forall n :: n in path[idx..] ==> n in w
  {
    forall n | n in path[idx..] ensures n in w {
      var i :| idx <= i < |path| && path[i] == n;
      if i < |path| - 1 {
        assert LeadsOn(w, path, i);
      }
    }
  }

  /** The walk came back to a node of its own path: one new cycle, and the path is done. */
  method ReportCycle(w: Graph, ghost done: set<string>, path: seq<string>, cur: string,
                     seenIdx: map<string, nat>, mark: map<string, Mark>, cycles: seq<DeadlockCycle>)
    returns (out: map<string, Mark>, found: seq<DeadlockCycle>)
    requires OnWalk(w, done, path, cur, seenIdx, mark) && cur in seenIdx
    requires Explored(w, done, cycles)
    ensures AllDone(out) && out.Keys == mark.Keys
    ensures Explored(w, out.Keys, found)
  {
    var idx := seenIdx[cur];
    var cycle := path[idx..];
    WalkInGraph(w, path, idx);
    var locks := LocksOf(w, cycle);
    found := cycles + [DeadlockCycle(cycle, locks)];
    FoundCycle(w, done, cycles, path, idx, DeadlockCycle(cycle, locks));
    out := MarkDone(path, mark);
  }

  /** The walk ran into explored ground or out of edges: the path is done, nothing is new. */
  method LeaveDeadEnd(w: Graph, ghost done: set<string>, path: seq<string>, mark: map<string, Mark>,
                      ghost cycles: seq<DeadlockCycle>)
    returns (out: map<string, Mark>)
    requires AtDeadEnd(w, done, path, mark) && Explored(w, done, cycles)
    ensures AllDone(out) && out.Keys == mark.Keys
    ensures Explored(w, out.Keys, cycles)
  {
    DeadEnd(w, done, cycles, path);
    out := MarkDone(path, mark);
  }

  lemma StartWalk(w: Graph, start: string, mark: map<string, Mark>)
    requires start in w && AllDone(mark) && mark.Keys <= Nodes(w)
    ensures OnWalk(w, mark.Keys, [], start, map[], mark)
  {
  }

  /** Follows edges from `start` until a node repeats, is already marked, or has no edge. */
  method Walk(w: Graph, start: string, mark: map<string, Mark>, cycles: seq<DeadlockCycle>)
    returns (out: map<string, Mark>, found: seq<DeadlockCycle>)
    requires start in w && start !in mark && AllDone(mark)
    requires mark.Keys <= Nodes(w) && Explored(w, mark.Keys, cycles)
    ensures AllDone(out) && mark.Keys + {start} <= out.Keys <= Nodes(w)
    ensures Explored(w, out.Keys, found)
  {
    hide Explored, AtDeadEnd, FreshWalk, Nodes;
    out, found := mark, cycles;
    var path: seq<string>, seenIdx: map<string, nat>, cur := [], map[], start;
    StartWalk(w, start, mark);
    while true
      invariant OnWalk(w, mark.Keys, path, cur, seenIdx, out)
      invariant if path == [] then cur == start else start in out
      decreases Nodes(w) - out.Keys
    {
      if cur in seenIdx {
        out, found := ReportCycle(w, mark.Keys, path, cur, seenIdx, out, cycles);
        return;
      }
      if cur in out {
        RanIntoDone(w, mark.Keys, path, cur, seenIdx, out);
        out := LeaveDeadEnd(w, mark.Keys, path, out, cycles);
        return;
      }
      Extend(w, mark.Keys, path, cur, seenIdx, out);
      ghost var was, at := out.Keys, cur;
      seenIdx := seenIdx[cur := |path|];
      path := path + [cur];
      out := out[cur := OnStack];
      assert out.Keys == was + {at} && at !in was && at in Nodes(w);
      if cur !in w {
        out := LeaveDeadEnd(w, mark.Keys, path, out, cycles);
        return;
      }
      cur := w[cur].to;
    }
  }

  /** Every cycle of the graph exactly once, whichever order the nodes are visited in. */
  method FindCycles(w: Graph) returns (cycles: seq<DeadlockCycle>)
    ensures forall k :: 0 <= k < |cycles| ==> IsDeadlock(w, cycles[k])
    ensures Disjoint(cycles)
    ensures AllReported(w, cycles)
  {
    cycles := [];
    var mark: map<string, Mark> := map[];
    var todo := w.Keys;
    while todo != {}
      invariant AllDone(mark) && mark.Keys <= Nodes(w) && todo <= w.Keys
      invariant Explored(w, mark.Keys, cycles)
      invariant w.Keys <= todo + mark.Keys
      decreases |todo|
    {
      var start :| start in todo;
      todo := todo - {start};
      if start !in mark {
        mark, cycles := Walk(w, start, mark, cycles);
      }
    }
    forall c | IsCycle(w, c) ensures c[0] in mark.Keys {
      assert LeadsOn(w, c, 0);
    }
  }

  /** The cycles left when only the first of every group with one key is kept. */
  function Deduped(cycles: seq<DeadlockCycle>, n: nat): seq<DeadlockCycle>
    requires n <= |cycles|
  {
    if n == 0 then []
    else
      var was := Deduped(cycles, n - 1);
      if Key(cycles[n - 1].threads) in Keys(was) then was else was + [cycles[n - 1]]
  }

  function Keys(cycles: seq<DeadlockCycle>): set<string> {
    set c | c in cycles :: Key(c.threads)
  }

  method DedupeCycles(cycles: seq<DeadlockCycle>) returns (out: seq<DeadlockCycle>)
    ensures out == Deduped(cycles, |cycles|)
  {
    out := [];
    var seen: set<string> := {};
    for i := 0 to |cycles|
      invariant out == Deduped(cycles, i)
      invariant seen == Keys(out)
    {
      var key := CanonicalCycleKey(cycles[i].threads);
      if key !in seen {
        seen := seen + {key};
        out := out + [cycles[i]];
      }
    }
  }

  /** Which of the first `n` cycles survive, as a sequence of increasing positions. */
  lemma {:induction false} DedupedAt(cycles: seq<DeadlockCycle>, n: nat) returns (at: seq<nat>)
    requires n <= |cycles|
    ensures |at| == |Deduped(cycles, n)|
    ensures forall i :: 0 <= i < |at| ==> at[i] < n && Deduped(cycles, n)[i] == cycles[at[i]]
    ensures forall i, j :: 0 <= i < j < |at| ==> at[i] < at[j]
  {
    hide Key, Keys;
    at := [];
    if n > 0 {
      var d, was := Deduped(cycles, n), Deduped(cycles, n - 1);
      var kept := |d| == |was|;
      assert d == if kept then was else was + [cycles[n - 1]];
      hide Deduped;
      at := DedupedAt(cycles, n - 1);
      if !kept {
        at := at + [n - 1];
      }
    }
  }

  lemma {:induction false} DedupedKeys(cycles: seq<DeadlockCycle>, n: nat, k: nat)
    requires k < n <= |cycles|
    ensures Key(cycles[k].threads) in Keys(Deduped(cycles, n))
  {
    hide Key;
    if k < n - 1 {
      DedupedKeys(cycles, n - 1, k);
      assert forall c :: c in Deduped(cycles, n - 1) ==> c in Deduped(cycles, n);
    } else {
      assert Key(cycles[k].threads) !in Keys(Deduped(cycles, n - 1)) ==> cycles[k] in Deduped(cycles, n);
    }
  }

  lemma {:induction false} DedupedKeepsAll(cycles: seq<DeadlockCycle>, n: nat)
    requires n <= |cycles|
    requires forall j :: 0 <= j < n ==> NewKeyAt(cycles, j)
    ensures Deduped(cycles, n) == cycles[..n]
  {
    hide Key, Keys;
    if n > 0 {
      DedupedKeepsAll(cycles, n - 1);
      assert NewKeyAt(cycles, n - 1);
      assert cycles[..n] == cycles[..n - 1] + [cycles[n - 1]];
    }
  }

  ghost predicate NewKeyAt(cycles: seq<DeadlockCycle>, j: nat)
    requires j < |cycles|
  {
    Key(cycles[j].threads) !in Keys(cycles[..j])
  }

  /** No two different cycles of the graph are written with the same key. */
  ghost predicate KeysSeparate(w: Graph) {
    forall c, d :: IsCycle(w, c) && IsCycle(w, d) && Key(c) == Key(d) ==> Rotation(c, d)
  }

  ghost predicate AllReported(w: Graph, cycles: seq<DeadlockCycle>) {
    forall c :: IsCycle(w, c) ==> Reported(cycles, c)
  }

  lemma SurvivorsSound(w: Graph, cycles: seq<DeadlockCycle>)
    requires forall k :: 0 <= k < |cycles| ==> IsDeadlock(w, cycles[k])
    requires Disjoint(cycles)
    ensures var out := Deduped(cycles, |cycles|);
            (forall k :: 0 <= k < |out| ==> IsDeadlock(w, out[k])) && Disjoint(out)
  {
    var at := DedupedAt(cycles, |cycles|);
  }

  lemma RotationElements(c: seq<string>, d: seq<string>)
    requires Rotation(c, d)
    ensures c != [] && d != [] && c[0] in Elements(d)
  {
  }

  /** Deduplication loses no deadlock when keys tell the graph's cycles apart. */
  lemma SeparateKeysLoseNothing(w: Graph, cycles: seq<DeadlockCycle>)
    requires forall k :: 0 <= k < |cycles| ==> IsDeadlock(w, cycles[k])
    requires Disjoint(cycles) && KeysSeparate(w)
    ensures Deduped(cycles, |cycles|) == cycles
  {
    forall j | 0 <= j < |cycles|
      ensures NewKeyAt(cycles, j)
    {
      if Key(cycles[j].threads) in Keys(cycles[..j]) {
        var i :| 0 <= i < j && Key(cycles[i].threads) == Key(cycles[j].threads);
        RotationElements(cycles[i].threads, cycles[j].threads);
      }
    }
    DedupedKeepsAll(cycles, |cycles|);
    assert cycles[..|cycles|] == cycles;
  }

  lemma {:induction false} DedupedKeysDiffer(cycles: seq<DeadlockCycle>, n: nat, i: nat, j: nat)
    requires n <= |cycles| && i < j < |Deduped(cycles, n)|
    ensures Key(Deduped(cycles, n)[i].threads) != Key(Deduped(cycles, n)[j].threads)
  {
    hide Key;
    var was := Deduped(cycles, n - 1);
    if j < |was| {
      DedupedKeysDiffer(cycles, n - 1, i, j);
    } else {
      assert was[i] in was;
    }
  }

  lemma SurvivorIsShared(w: Graph, cycles: seq<DeadlockCycle>, c: seq<string>, d: seq<string>)
    requires AllReported(w, Deduped(cycles, |cycles|))
    requires IsCycle(w, c) && IsCycle(w, d) && Key(c) == Key(d)
    ensures Rotation(c, d)
  {
    var out := Deduped(cycles, |cycles|);
    var k :| 0 <= k < |out| && Rotation(c, out[k].threads);
    var l :| 0 <= l < |out| && Rotation(d, out[l].threads);
    RotationsShareKey(c, out[k].threads);
    RotationsShareKey(d, out[l].threads);
    if k < l {
      DedupedKeysDiffer(cycles, |cycles|, k, l);
    } else if l < k {
      DedupedKeysDiffer(cycles, |cycles|, l, k);
    }
    RotationSymmetric(d, out[l].threads);
    RotationTransitive(c, out[k].threads, d);
  }

  /** The deadlock report of a dump.
      Every entry is a deadlock of at least two threads, no thread is in two entries,
      and nothing is missing exactly when the joined names tell the cycles apart. */
  method DeadlocksOf(threads: seq<Thread>) returns (out: seq<DeadlockCycle>)
    ensures forall k :: 0 <= k < |out| ==> IsDeadlock(WaitGraph(threads), out[k]) && |out[k].threads| >= 2
    ensures Disjoint(out)
    ensures AllReported(WaitGraph(threads), out) <==> KeysSeparate(WaitGraph(threads))
  {
    hide KeysSeparate, AllReported, Deduped, Disjoint, IsDeadlock, Waits, NoSelfEdge;
    var wait := WaitForGraphOf(threads);
    var cycles := FindCycles(wait);
    out := DedupeCycles(cycles);
    SurvivorsSound(wait, cycles);
    if KeysSeparate(wait) {
      SeparateKeysLoseNothing(wait, cycles);
    }
    CompleteOnlyIfSeparate(wait, cycles);
    NoSelfWait(threads, |threads|);
    AtLeastTwo(wait, out);
  }

  lemma CompleteOnlyIfSeparate(w: Graph, cycles: seq<DeadlockCycle>)
    ensures AllReported(w, Deduped(cycles, |cycles|)) ==> KeysSeparate(w)
  {
    if AllReported(w, Deduped(cycles, |cycles|)) {
      forall c, d | IsCycle(w, c) && IsCycle(w, d) && Key(c) == Key(d)
        ensures Rotation(c, d)
      {
        SurvivorIsShared(w, cycles, c, d);
      }
    }
  }

  lemma AtLeastTwo(w: Graph, cycles: seq<DeadlockCycle>)
    requires NoSelfEdge(w) && forall k :: 0 <= k < |cycles| ==> IsDeadlock(w, cycles[k])
    ensures forall k :: 0 <= k < |cycles| ==> |cycles[k].threads| >= 2
  {
    forall k | 0 <= k < |cycles| ensures |cycles[k].threads| >= 2 {
      assert LeadsOn(w, cycles[k].threads, 0);
    }
  }

  /** Dumps whose thread names contain no arrow lose no deadlock. */
  lemma ArrowFreeDumpsSeparate(threads: seq<Thread>)
    requires forall t :: t in threads ==> ARROW !in t.name
    ensures KeysSeparate(WaitGraph(threads))
  {
    var w := WaitGraph(threads);
    forall c, d | IsCycle(w, c) && IsCycle(w, d) && Key(c) == Key(d)
      ensures Rotation(c, d)
    {
      CyclesAreArrowFree(threads, c);
      CyclesAreArrowFree(threads, d);
      ArrowFreeKeysSeparate(c, d);
    }
  }

  lemma CyclesAreArrowFree(threads: seq<Thread>, c: seq<string>)
    requires forall t :: t in threads ==> ARROW !in t.name
    requires IsCycle(WaitGraph(threads), c)
    ensures ArrowFree(c)
  {
    forall i | 0 <= i < |c| ensures ARROW !in c[i] {
      assert LeadsOn(WaitGraph(threads), c, i);
      WaitsMeaning(threads, |threads|, c[i]);
      var j: nat :| IsWaitAt(threads, |threads|, c[i], WaitGraph(threads)[c[i]], j);
      assert threads[j] in threads;
    }
  }

  const CLASHING_DUMP := [
    Thread("A\U{2192}B", [LockRef("1", "", "locked"), LockRef("2", "", "waiting to lock")]),
    Thread("C", [LockRef("2", "", "locked"), LockRef("1", "", "waiting to lock")]),
    Thread("A", [LockRef("3", "", "locked"), LockRef("4", "", "waiting to lock")]),
    Thread("B\U{2192}C", [LockRef("4", "", "locked"), LockRef("3", "", "waiting to lock")])]

  lemma ClashingHolders()
    ensures Holders(CLASHING_DUMP, 4) ==
            map["1" := "A\U{2192}B", "2" := "C", "3" := "A", "4" := "B\U{2192}C"]
  {
  }

  lemma ClashingGraph()
    ensures WaitGraph(CLASHING_DUMP) ==
            map["A\U{2192}B" := Edge("C", LockRef("2", "", "waiting to lock")),
                "C" := Edge("A\U{2192}B", LockRef("1", "", "waiting to lock")),
                "A" := Edge("B\U{2192}C", LockRef("4", "", "waiting to lock")),
                "B\U{2192}C" := Edge("A", LockRef("3", "", "waiting to lock"))]
  {
    var ts := CLASHING_DUMP;
    forall i | 0 <= i < 4 ensures WaitingOn(ts[i].locks) == ts[i].locks[1] {
      assert WaitingOn(ts[i].locks) == WaitingOn(ts[i].locks[1..]);
    }
    ClashingHolders();
  }

  /** Two real deadlocks of four threads, of which one goes missing from the report. */
  lemma ArrowInNameLosesDeadlock()
    ensures !KeysSeparate(WaitGraph(CLASHING_DUMP))
  {
    var w := WaitGraph(CLASHING_DUMP);
    var c, d := ["A\U{2192}B", "C"], ["A", "B\U{2192}C"];
    assert IsCycle(w, c) && IsCycle(w, d) by {
      ClashingGraph();
    }
    assert Rot(c, 0) == c && Rot(d, 0) == d;
    assert Key(c) == "A\U{2192}B\U{2192}C" == Key(d);
    assert !Rotation(c, d);
  }
}
