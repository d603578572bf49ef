/** The mock server's file namespace: writes at offsets, lazy promotion of finished uploads,
    and eviction after a read. Keys "<user>/<folder>/<name>" are kept as their three parts. */
module MockServer {

  newtype Byte = b: int | 0 <= b < 256
  type Bytes = seq<Byte>

  datatype Path = Path(user: string, folder: string, name: string)

  /** `completedAt` is 0 while the upload is in progress. */
  datatype File = File(size: nat, completedAt: int, trackID: string, content: Bytes)

  type Files = map<Path, File>
  type Routes = map<string, string>

  /** One `WriteAt` call. */
  datatype Write = Write(off: nat, data: Bytes)

  predicate Covers(w: Write, i: nat) {
    w.off <= i < w.off + |w.data|
  }

  function Max(a: nat, b: nat): nat {
    if a < b then b else a
  }

  function Overlay(c: Bytes, w: Write): Bytes {
    seq(Max(|c|, w.off + |w.data|), i requires 0 <= i =>
      if Covers(w, i) then w.data[i - w.off] else if i < |c| then c[i] else 0)
  }

  /** The buffer after the calls `ws`, in the order the handle's lock let them in. */
  function Assemble(ws: seq<Write>): Bytes {
    if ws == [] then [] else Overlay(Assemble(ws[..|ws| - 1]), ws[|ws| - 1])
  }

  class WriteHandle {
    const persist: bool
    var size: nat
    var content: Bytes

    constructor (persist: bool)
      ensures this.persist == persist && size == 0 && content == []
    {
      this.persist := persist;
      size, content := 0, [];
    }

    method WriteAt(w: Write)
      modifies this
      ensures size == Max(old(size), w.off + |w.data|)
      ensures content == if persist then Overlay(old(content), w) else old(content)
    {
      var end := w.off + |w.data|;
      if end > size {
        size := end;
      }
      if persist {
        if |content| < end {
          content := content + seq(end - |content|, _ => 0);
        }
        content := content[..w.off] + w.data + content[end..];
      }
    }
  }

  /** A write of the sequence that covers `i`, the last one. */
  ghost predicate LastCover(ws: seq<Write>, i: nat, k: nat) {
    k < |ws| && Covers(ws[k], i) && forall j :: k < j < |ws| ==> !Covers(ws[j], i)
  }

  /** Each byte is that of the last write over it, uncovered bytes are zero, and the buffer ends
      where the furthest write does. */
  lemma {:induction false} LastWriteWins(ws: seq<Write>, i: nat)
    requires i < |Assemble(ws)|
    ensures if exists k: nat :: LastCover(ws, i, k)
            then forall k: nat :: LastCover(ws, i, k) ==> Assemble(ws)[i] == ws[k].data[i - ws[k].off]
            else Assemble(ws)[i] == 0 && forall k :: 0 <= k < |ws| ==> !Covers(ws[k], i)
  {
    var n := |ws| - 1;
    var front := ws[..n];
    if Covers(ws[n], i) {
      assert LastCover(ws, i, n);
    } else {
      forall k: nat ensures LastCover(ws, i, k) <==> LastCover(front, i, k) {
      }
      if i < |Assemble(front)| {
        LastWriteWins(front, i);
      } else {
        forall k | 0 <= k < n ensures !Covers(front[k], i) {
          EndsAtFurthest(front, k);
        }
      }
    }
  }

  lemma {:induction false} EndsAtFurthest(ws: seq<Write>, k: nat)
    requires k < |ws|
    ensures ws[k].off + |ws[k].data| <= |Assemble(ws)|
    ensures exists j :: 0 <= j < |ws| && |Assemble(ws)| == ws[j].off + |ws[j].data|
  {
    var n := |ws| - 1;
    var front := ws[..n];
    if n > 0 {
      EndsAtFurthest(front, if k < n then k else 0);
      var j :| 0 <= j < n && |Assemble(front)| == front[j].off + |front[j].data|;
      assert |Assemble(ws)| == if |Assemble(front)| < ws[n].off + |ws[n].data|
        then ws[n].off + |ws[n].data| else ws[j].off + |ws[j].data|;
    }
  }

  ghost predicate DisjointWrites(ws: seq<Write>) {
    forall j, k, i {:trigger Covers(ws[j], i), Covers(ws[k], i)} ::
      0 <= j < k < |ws| && Covers(ws[j], i) ==> !Covers(ws[k], i)
  }

  /** Disjoint chunks give the same file in whatever order they arrive. */
  lemma ArrivalOrderIrrelevant(ws: seq<Write>, vs: seq<Write>)
    requires multiset(ws) == multiset(vs) && DisjointWrites(ws)
    ensures Assemble(ws) == Assemble(vs)
  {
    assert forall w :: w in ws <==> w in multiset(ws);
    assert forall w :: w in vs <==> w in multiset(vs);
    NotLonger(ws, vs);
    NotLonger(vs, ws);
    forall i | 0 <= i < |Assemble(ws)| ensures Assemble(ws)[i] == Assemble(vs)[i] {
      SameByte(ws, vs, i);
    }
  }

  lemma NotLonger(ws: seq<Write>, vs: seq<Write>)
    requires forall w :: w in ws ==> w in vs
    ensures |Assemble(ws)| <= |Assemble(vs)|
  {
    if ws != [] {
      EndsAtFurthest(ws, 0);
      var j :| 0 <= j < |ws| && |Assemble(ws)| == ws[j].off + |ws[j].data|;
      assert ws[j] in vs;
      var k :| 0 <= k < |vs| && vs[k] == ws[j];
      EndsAtFurthest(vs, k);
    }
  }

  lemma SameByte(ws: seq<Write>, vs: seq<Write>, i: nat)
    requires (forall w :: w in ws <==> w in vs) && DisjointWrites(ws)
    requires i < |Assemble(ws)| && i < |Assemble(vs)|
    ensures Assemble(ws)[i] == Assemble(vs)[i]
  {
    hide Assemble;
    LastWriteWins(ws, i);
    LastWriteWins(vs, i);
    if k: nat :| LastCover(vs, i, k) {
      assert vs[k] in ws;
      var j :| 0 <= j < |ws| && ws[j] == vs[k];
      assert LastCover(ws, i, j);
    } else {
      forall j | 0 <= j < |ws| ensures !Covers(ws[j], i) {
        assert ws[j] in vs;
        var k :| 0 <= k < |vs| && vs[k] == ws[j];
      }
    }
  }

  // Promotion and eviction

  predicate Ready(files: Files, p: Path, now: int, delay: int) {
    && p in files && files[p].completedAt != 0 && p.folder == "inbox" && '#' !in p.name
    && now - files[p].completedAt >= delay
  }

  function Tracked(name: string, tid: string): string {
    name + "#" + tid
  }

  /** Where uploads of `user` are routed; unpaired users receive their own. */
  function RouteOf(routes: Routes, user: string): string {
    if user in routes && routes[user] != "" then routes[user] else user
  }

  function InboxOf(p: Path, tid: string): Path { Path(p.user, "inbox", Tracked(p.name, tid)) }
  function SentOf(p: Path, tid: string): Path { Path(p.user, "sent", Tracked(p.name, tid)) }
  function OutboxOf(routes: Routes, p: Path, tid: string): Path {
    Path(RouteOf(routes, p.user), "outbox", Tracked(p.name, tid))
  }

  /** Rename in the inbox, copy to the route's outbox, copy to the sender's sent folder. */
  function PromoteOne(files: Files, routes: Routes, p: Path, tid: string, now: int): Files
    requires p in files
  {
    var st := files[p].(trackID := tid);
    var copy := st.(completedAt := now);
    ((files[InboxOf(p, tid) := st]) - {p})[OutboxOf(routes, p, tid) := copy][SentOf(p, tid) := copy]
  }

  /** No file is called what some promotion will call its copies. */
  ghost predicate FreshIds(files: Files, tids: map<Path, string>) {
    && (forall p, q :: p in tids && q in files ==> q.name != Tracked(p.name, tids[p]))
    && (forall p, q :: p in tids && q in tids && p != q ==> Tracked(p.name, tids[p]) != Tracked(q.name, tids[q]))
  }

  /** The three copies of one promoted upload, all with its bytes, id and size. */
  ghost predicate HasCopies(files: Files, routes: Routes, p: Path, st: File, tid: string, now: int) {
    && p !in files
    && InboxOf(p, tid) in files && files[InboxOf(p, tid)] == st.(trackID := tid)
    && OutboxOf(routes, p, tid) in files && files[OutboxOf(routes, p, tid)] == st.(trackID := tid, completedAt := now)
    && SentOf(p, tid) in files && files[SentOf(p, tid)] == st.(trackID := tid, completedAt := now)
  }

  ghost predicate IsAt(files: Files, user: string, folder: string, name: string, st: File) {
    Path(user, folder, name) in files && files[Path(user, folder, name)] == st
  }

  /** Where one promoted upload is afterwards, in the sender's terms: no longer in the inbox under its own name,
      there and in sent under the tracked one, and in the outbox of whoever the sender is routed to, his own when
      he is not paired. */
  ghost predicate Delivered(files: Files, routes: Routes, p: Path, st: File, tid: string, now: int) {
    var tracked, copy := p.name + "#" + tid, File(st.size, now, tid, st.content);
    && p !in files
    && IsAt(files, p.user, "inbox", tracked, copy.(completedAt := st.completedAt))
    && IsAt(files, p.user, "sent", tracked, copy)
    && (p.user in routes && routes[p.user] != "" ==> IsAt(files, routes[p.user], "outbox", tracked, copy))
    && (p.user !in routes || routes[p.user] == "" ==> IsAt(files, p.user, "outbox", tracked, copy))
  }

  lemma CopiesAreDelivered(files: Files, routes: Routes, p: Path, st: File, tid: string, now: int)
    requires HasCopies(files, routes, p, st, tid, now)
    ensures Delivered(files, routes, p, st, tid, now)
  {
  }

  /** Promotion part-way: `moved` have their copies, `ready` are as they were, the rest is untouched. */
  ghost predicate Promoting(was: Files, files: Files, routes: Routes, tids: map<Path, string>,
                            now: int, delay: int, ready: set<Path>, moved: set<Path>)
    requires forall p :: p in was ==> p in tids
  {
    && (forall p :: p in was && Ready(was, p, now, delay) ==> p in ready || p in moved)
    && (forall p :: p in ready || p in moved ==> Ready(was, p, now, delay))
    && (forall p :: p in moved ==> HasCopies(files, routes, p, was[p], tids[p], now))
    && (forall q :: q in was && q !in moved ==> q in files && files[q] == was[q])
    && (forall q :: q in files && q !in was ==> IsCopy(was, routes, tids, moved, q))
  }

  predicate CopyOf(routes: Routes, p: Path, tid: string, q: Path) {
    q == InboxOf(p, tid) || q == OutboxOf(routes, p, tid) || q == SentOf(p, tid)
  }

  ghost predicate IsCopy(was: Files, routes: Routes, tids: map<Path, string>, moved: set<Path>, q: Path) {
    exists p :: p in moved && p in was && p in tids && CopyOf(routes, p, tids[p], q)
  }

  lemma CopyIsElsewhere(was: Files, tids: map<Path, string>, p: Path, q: Path)
    requires FreshIds(was, tids) && p in was && p in tids
    requires q in was || (q in tids && q != p)
    ensures q in was ==> q.name != Tracked(p.name, tids[p])
    ensures q in tids && q != p ==> Tracked(q.name, tids[q]) != Tracked(p.name, tids[p])
  {
  }

  lemma PromoteOneEffect(files: Files, routes: Routes, p: Path, tid: string, now: int)
    requires p in files && p.name != Tracked(p.name, tid)
    ensures HasCopies(PromoteOne(files, routes, p, tid, now), routes, p, files[p], tid, now)
    ensures forall q: Path :: !CopyOf(routes, p, tid, q) && q != p ==>
              SameAt(files, PromoteOne(files, routes, p, tid, now), q)
  {
  }

  predicate SameAt(a: Files, b: Files, q: Path) {
    (q in a <==> q in b) && (q in a ==> a[q] == b[q])
  }

  lemma CopiesElsewhere(a: Files, b: Files, routes: Routes, m: Path, st: File, tid: string, now: int)
    requires HasCopies(a, routes, m, st, tid, now)
    requires SameAt(a, b, m) && SameAt(a, b, InboxOf(m, tid))
    requires SameAt(a, b, OutboxOf(routes, m, tid)) && SameAt(a, b, SentOf(m, tid))
    ensures HasCopies(b, routes, m, st, tid, now)
  {
  }

  lemma PromoteStep(was: Files, files: Files, routes: Routes, tids: map<Path, string>,
                    now: int, delay: int, ready: set<Path>, moved: set<Path>, p: Path)
    requires (forall q :: q in was ==> q in tids) && FreshIds(was, tids) && ready !! moved
    requires Promoting(was, files, routes, tids, now, delay, ready, moved)
    requires p in ready && p in files
    ensures Promoting(was, PromoteOne(files, routes, p, tids[p], now), routes, tids, now, delay, ready - {p}, moved + {p})
  {
    hide Tracked, HasCopies, FreshIds, PromoteOne;
    var after := PromoteOne(files, routes, p, tids[p], now);
    CopyIsElsewhere(was, tids, p, p);
    PromoteOneEffect(files, routes, p, tids[p], now);
    forall m | m in moved ensures HasCopies(after, routes, m, was[m], tids[m], now) {
      CopyIsElsewhere(was, tids, p, m);
      CopyIsElsewhere(was, tids, m, p);
      CopiesElsewhere(files, after, routes, m, was[m], tids[m], now);
    }
    forall q | q in was && q !in moved + {p} ensures q in after && after[q] == was[q] {
      CopyIsElsewhere(was, tids, p, q);
      assert SameAt(files, after, q);
    }
    forall q | q in after && q !in was ensures IsCopy(was, routes, tids, moved + {p}, q) {
      if !CopyOf(routes, p, tids[p], q) {
        assert SameAt(files, after, q);
        var m :| m in moved && m in was && m in tids && CopyOf(routes, m, tids[m], q);
        assert m in moved + {p};
      }
    }
  }

  lemma NoneLeft(was: Files, files: Files, routes: Routes, tids: map<Path, string>,
                 now: int, delay: int, moved: set<Path>, q: Path)
    requires forall p :: p in was ==> p in tids
    requires Promoting(was, files, routes, tids, now, delay, {}, moved)
    ensures !Ready(files, q, now, delay)
  {
    hide IsCopy, Tracked;
    if q in files && q !in was {
      HashInCopy(was, routes, tids, moved, q);
    }
  }

  lemma HashInCopy(was: Files, routes: Routes, tids: map<Path, string>, moved: set<Path>, q: Path)
    requires IsCopy(was, routes, tids, moved, q)
    ensures '#' in q.name
  {
    var p :| p in moved && p in was && p in tids && CopyOf(routes, p, tids[p], q);
    assert q.name[|p.name|] == '#';
  }

  lemma NewIsCopy(was: Files, files: Files, routes: Routes, tids: map<Path, string>,
                  now: int, delay: int, moved: set<Path>, q: Path)
    requires forall p :: p in was ==> p in tids
    requires Promoting(was, files, routes, tids, now, delay, {}, moved) && q in files && q !in was
    ensures exists p :: Ready(was, p, now, delay) && CopyOf(routes, p, tids[p], q)
  {
    var p :| p in moved && p in was && p in tids && CopyOf(routes, p, tids[p], q);
    assert Ready(was, p, now, delay);
  }

  /** Reading from an outbox may drop the entry with its inbox and sent originals. */
  function Evict(files: Files, routes: Routes, user: string, name: string): Files {
    map q | q in files && q != Path(user, "outbox", name) && !IsOriginal(routes, routes.Keys, user, name, q) :: files[q]
  }

  /** An inbox or sent entry of that name, of one of the `sources` routed to `user`. */
  predicate IsOriginal(routes: Routes, sources: set<string>, user: string, name: string, q: Path) {
    && q.name == name && (q.folder == "inbox" || q.folder == "sent")
    && q.user in sources && q.user in routes && routes[q.user] == user
  }

  /** What is left after a read of `user`'s outbox: everything but the copy that was read and, for every sender routed
      to him, the inbox and sent entries under that name. */
  ghost predicate LeftAfterRead(files: Files, routes: Routes, user: string, name: string, after: Files) {
    && (forall q :: q in after ==> q in files && after[q] == files[q])
    && (forall q :: q in files && q !in after ==> IsDropped(routes, user, name, q))
    && Path(user, "outbox", name) !in after
    && (forall src :: src in routes && routes[src] == user ==>
          Path(src, "inbox", name) !in after && Path(src, "sent", name) !in after)
  }

  ghost predicate IsDropped(routes: Routes, user: string, name: string, q: Path) {
    || q == Path(user, "outbox", name)
    || (q.user in routes && routes[q.user] == user && (q == Path(q.user, "inbox", name) || q == Path(q.user, "sent", name)))
  }

  lemma EvictLeaves(files: Files, routes: Routes, user: string, name: string)
    ensures LeftAfterRead(files, routes, user, name, Evict(files, routes, user, name))
  {
  }

  /** The same, with only the originals of some senders gone. */
  function EvictFrom(files: Files, routes: Routes, sources: set<string>, user: string, name: string): Files {
    map q | q in files && q != Path(user, "outbox", name) && !IsOriginal(routes, sources, user, name, q) :: files[q]
  }

  lemma EvictNone(files: Files, routes: Routes, user: string, name: string)
    ensures EvictFrom(files, routes, {}, user, name) == files - {Path(user, "outbox", name)}
  {
  }

  lemma EvictAll(files: Files, routes: Routes, user: string, name: string)
    ensures EvictFrom(files, routes, routes.Keys, user, name) == Evict(files, routes, user, name)
  {
  }

  lemma EvictOneMore(files: Files, routes: Routes, sources: set<string>, user: string, name: string, src: string)
    requires src in routes
    ensures EvictFrom(files, routes, sources + {src}, user, name)
            == if routes[src] == user
               then EvictFrom(files, routes, sources, user, name) - {Path(src, "inbox", name), Path(src, "sent", name)}
               else EvictFrom(files, routes, sources, user, name)
  {
    forall q
      ensures IsOriginal(routes, sources + {src}, user, name, q)
              <==> IsOriginal(routes, sources, user, name, q)
                   || (routes[src] == user && (q == Path(src, "inbox", name) || q == Path(src, "sent", name)))
    {
    }
  }

  function Zeros(n: nat): Bytes {
    seq(n, _ => 0)
  }

  datatype ReadResult = NotExist | Data(bytes: Bytes)

  class MockFS {
    var files: Files
    var routes: Routes
    const delay: int
    const persist: bool
    const evictAfterRead: bool
    const failUsers: set<string>

    constructor (delay: int, routes: Routes, persist: bool, evictAfterRead: bool, failUsers: set<string>)
      ensures this.failUsers == failUsers
      ensures this.delay == delay && this.routes == routes && files == map[]
      ensures this.persist == persist && this.evictAfterRead == evictAfterRead
    {
      this.delay, this.routes, this.files := delay, routes, map[];
      this.persist, this.evictAfterRead, this.failUsers := persist, evictAfterRead, failUsers;
    }

    /** Opening for write starts an empty, unfinished file; only in the inbox, and not for a user whose writes
        are set to fail. */
    method Filewrite(user: string, folder: string, name: string) returns (ok: bool)
      modifies this`files
      ensures ok == (folder == "inbox" && user !in failUsers)
      ensures files == if ok then old(files)[Path(user, "inbox", name) := File(0, 0, "", [])] else old(files)
    {
      if folder != "inbox" {
        return false;
      }
      if user in failUsers {
        return false;
      }
      files := files[Path(user, folder, name) := File(0, 0, "", [])];
      return true;
    }

    /** Closing the handle finishes the file, if it is still there. */
    method Close(p: Path, size: nat, content: Bytes, now: int)
      modifies this`files
      ensures p !in old(files) ==> files == old(files)
      ensures p in old(files) ==>
                files == old(files)[p := File(size, now, old(files)[p].trackID, content)]
    {
      if p in files {
        files := files[p := files[p].(size := size, completedAt := now, content := content)];
      }
    }

    /** Drops the outbox entry that was read, and the inbox and sent originals of every sender routed here. */
    method EvictRead(user: string, name: string)
      modifies this`files
      ensures files == Evict(old(files), routes, user, name) && LeftAfterRead(old(files), routes, user, name, files)
    {
      EvictLeaves(files, routes, user, name);
      hide LeftAfterRead, Evict, IsOriginal;
      var p := Path(user, "outbox", name);
      ghost var was := files;
      files := files - {p};
      var todo := routes.Keys;
      ghost var done: set<string> := {};
      EvictNone(was, routes, user, name);
      hide EvictFrom;
      while todo != {}
        invariant done + todo == routes.Keys && done !! todo
        invariant files == EvictFrom(was, routes, done, user, name)
        decreases |todo|
      {
        var src :| src in todo;
        EvictOneMore(was, routes, done, user, name, src);
        todo, done := todo - {src}, done + {src};
        if routes[src] == user {
          files := files - {Path(src, "inbox", name), Path(src, "sent", name)};
        }
      }
      EvictAll(was, routes, user, name);
      assert done == routes.Keys;
    }

    /** What is read is what was stored, or zeros when the server keeps no content. */
    method Fileread(user: string, folder: string, name: string) returns (r: ReadResult)
      modifies this`files
      ensures var p := Path(user, folder, name);
              if p !in old(files) then r == NotExist && files == old(files)
              else
                && r == Data(if persist && old(files)[p].content != [] then old(files)[p].content
                             else Zeros(old(files)[p].size))
                && files == if folder == "outbox" && evictAfterRead then Evict(old(files), routes, user, name)
                            else old(files)
    {
      var p := Path(user, folder, name);
      if p !in files {
        return NotExist;
      }
      var st := files[p];
      if folder == "outbox" && evictAfterRead {
        EvictRead(user, name);
      }
      if persist && st.content != [] {
        return Data(st.content);
      }
      return Data(Zeros(st.size));
    }

    /** Promotes every upload finished `delay` ago or longer, each once; `tids` are the ids drawn for them. Whatever is
        still being written, was finished later, has been promoted or is not in an inbox is left alone. */
    method PromoteInboxes(now: int, tids: map<Path, string>)
      requires forall p :: p in files ==> p in tids
      requires FreshIds(files, tids)
      modifies this`files
      ensures forall p :: p in old(files) ==>
                var st := old(files)[p];
                if p.folder == "inbox" && '#' !in p.name && st.completedAt != 0 && now - st.completedAt >= delay
                then Delivered(files, routes, p, st, tids[p], now) else p in files && files[p] == st
      ensures forall q :: q in files && q !in old(files) ==>
                exists p :: Ready(old(files), p, now, delay) && CopyOf(routes, p, tids[p], q)
      ensures forall q :: !Ready(files, q, now, delay)
    {
      ghost var was := files;
      var ready := set p | p in files && Ready(files, p, now, delay);
      ghost var moved: set<Path> := {};
      hide HasCopies, IsCopy, FreshIds, Delivered;
      while ready != {}
        invariant ready !! moved
        invariant Promoting(was, files, routes, tids, now, delay, ready, moved)
        decreases |ready|
      {
        var p :| p in ready;
        PromoteStep(was, files, routes, tids, now, delay, ready, moved, p);
        files := PromoteOne(files, routes, p, tids[p], now);
        ready := ready - {p};
        moved := moved + {p};
      }
      forall p | p in was && Ready(was, p, now, delay) ensures Delivered(files, routes, p, was[p], tids[p], now) {
        CopiesAreDelivered(files, routes, p, was[p], tids[p], now);
      }
      forall q ensures !Ready(files, q, now, delay) {
        NoneLeft(was, files, routes, tids, now, delay, moved, q);
      }
      forall q | q in files && q !in was
        ensures exists p :: Ready(was, p, now, delay) && CopyOf(routes, p, tids[p], q)
      {
        NewIsCopy(was, files, routes, tids, now, delay, moved, q);
      }
    }
  }
}
