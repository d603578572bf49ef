/** Histories of the mock server: uploads, promotions and reads in any order. */
module MockServerRuns {

  import opened MockServer

  datatype Event =
    | Open(user: string, name: string)
    | Finish(p: Path, size: nat, content: Bytes, at: int)
    | Promote(p: Path, tid: string, now: int)
    | Read(user: string, folder: string, name: string)

  /** A promotion takes a finished upload, under a name nothing is called yet. */
  ghost predicate CanHappen(files: Files, e: Event) {
    e.Promote? ==>
      && e.p in files && files[e.p].completedAt != 0 && e.p.folder == "inbox" && '#' !in e.p.name
      && forall q :: q in files ==> q.name != Tracked(e.p.name, e.tid)
  }

  function Next(files: Files, routes: Routes, evicting: bool, e: Event): Files {
    match e
    case Open(user, name) => files[Path(user, "inbox", name) := File(0, 0, "", [])]
    case Finish(p, size, content, at) =>
      if p in files then files[p := File(size, at, files[p].trackID, content)] else files
    case Promote(p, tid, now) => if p in files then PromoteOne(files, routes, p, tid, now) else files
    case Read(user, folder, name) =>
      if Path(user, folder, name) in files && folder == "outbox" && evicting then Evict(files, routes, user, name)
      else files
  }

  ghost predicate IsHistory(run: seq<Files>, events: seq<Event>, routes: Routes, evicting: bool) {
    && |run| == |events| + 1 && run[0] == map[]
    && forall i :: 0 <= i < |events| ==>
         CanHappen(run[i], events[i]) && run[i + 1] == Next(run[i], routes, evicting, events[i])
  }

  /** The event gives the file `c` new contents, or a new file that name. */
  predicate Writes(e: Event, routes: Routes, c: Path) {
    match e
    case Open(user, name) => c == Path(user, "inbox", name)
    case Finish(p, _, _, _) => c == p
    case Promote(p, tid, _) => c == p || CopyOf(routes, p, tid, c)
    case Read(_, _, _) => false
  }

  /** The event is a read that evicts `c`. */
  predicate Evicts(files: Files, e: Event, routes: Routes, evicting: bool, c: Path) {
    && e.Read? && evicting && e.folder == "outbox" && Path(e.user, e.folder, e.name) in files
    && (c == Path(e.user, "outbox", e.name) || IsOriginal(routes, routes.Keys, e.user, e.name, c))
  }

  ghost predicate EvictedBetween(run: seq<Files>, events: seq<Event>, routes: Routes, evicting: bool, c: Path, j: int, n: int) {
    exists i :: j <= i < n && 0 <= i < |events| && i < |run| && Evicts(run[i], events[i], routes, evicting, c)
  }

  lemma KeptByStep(files: Files, routes: Routes, evicting: bool, e: Event, c: Path)
    requires !Writes(e, routes, c)
    ensures c in Next(files, routes, evicting, e) <==> c in files && !Evicts(files, e, routes, evicting, c)
    ensures c in Next(files, routes, evicting, e) ==> Next(files, routes, evicting, e)[c] == files[c]
  {
    hide IsOriginal;
  }

  lemma {:induction false} KeptUntilEvicted(run: seq<Files>, events: seq<Event>, routes: Routes, evicting: bool,
                                           c: Path, j: nat, n: nat)
    requires IsHistory(run, events, routes, evicting) && j <= n < |run| && c in run[j]
    requires forall i :: j <= i < n ==> !Writes(events[i], routes, c)
    ensures c in run[n] <==> !EvictedBetween(run, events, routes, evicting, c, j, n)
    ensures c in run[n] ==> run[n][c] == run[j][c]
  {
    if j < n {
      KeptUntilEvicted(run, events, routes, evicting, c, j, n - 1);
      hide Next, Evicts, Writes, CanHappen;
      var e := events[n - 1];
      KeptByStep(run[n - 1], routes, evicting, e, c);
      if EvictedBetween(run, events, routes, evicting, c, j, n - 1) {
        var i :| j <= i < n - 1 && 0 <= i < |events| && i < |run| && Evicts(run[i], events[i], routes, evicting, c);
        assert EvictedBetween(run, events, routes, evicting, c, j, n);
      }
      if Evicts(run[n - 1], e, routes, evicting, c) {
        assert EvictedBetween(run, events, routes, evicting, c, j, n);
      }
    }
  }

  /** A promotion leaves the upload's bytes, size and id under three names, and each stays so, whatever follows,
      until a read evicts it or something is written under that very name. */
  lemma PromotedCopiesStay(run: seq<Files>, events: seq<Event>, routes: Routes, evicting: bool, j: nat, n: nat, c: Path)
    requires IsHistory(run, events, routes, evicting) && j < n < |run| && events[j].Promote?
    requires CopyOf(routes, events[j].p, events[j].tid, c)
    requires forall i :: j < i < n ==> !Writes(events[i], routes, c)
    ensures c in run[n] <==> !EvictedBetween(run, events, routes, evicting, c, j + 1, n)
    ensures c in run[n] ==>
              && run[n][c].content == run[j][events[j].p].content && run[n][c].size == run[j][events[j].p].size
              && run[n][c].trackID == events[j].tid
  {
    var e := events[j];
    assert CanHappen(run[j], e);
    assert e.p.name != Tracked(e.p.name, e.tid);
    PromoteOneEffect(run[j], routes, e.p, e.tid, e.now);
    KeptUntilEvicted(run, events, routes, evicting, c, j + 1, n);
  }

  /** Nothing is written under `c` between the events, and no read evicts it. */
  ghost predicate Untouched(run: seq<Files>, events: seq<Event>, routes: Routes, c: Path, j: int, n: int) {
    && !EvictedBetween(run, events, routes, true, c, j + 1, n)
    && forall i :: j < i < n && 0 <= i < |events| ==> !Writes(events[i], routes, c)
  }

  /** A read of the receiver's copy, when the server evicts, takes the sender's two copies with it if and only if the
      sender is paired; the copies of a sender who is not stay for good. */
  lemma ReadTakesOriginalsIff(run: seq<Files>, events: seq<Event>, routes: Routes, j: nat, n: nat)
    requires IsHistory(run, events, routes, true) && j < n < |events| && events[j].Promote?
    requires forall c :: CopyOf(routes, events[j].p, events[j].tid, c) ==> Untouched(run, events, routes, c, j, n)
    requires var e := events[j];
             var receiver := if e.p.user in routes && routes[e.p.user] != "" then routes[e.p.user] else e.p.user;
             events[n] == Read(receiver, "outbox", e.p.name + "#" + e.tid)
    ensures var e, paired := events[j], events[j].p.user in routes && routes[events[j].p.user] != "";
            var tracked := e.p.name + "#" + e.tid;
            && Path(events[n].user, "outbox", tracked) !in run[n + 1]
            && (e.p.user != "" ==>
                  (Path(e.p.user, "inbox", tracked) in run[n + 1] <==> !paired)
                  && (Path(e.p.user, "sent", tracked) in run[n + 1] <==> !paired))
  {
    var e := events[j];
    var inbox, sent, outbox := InboxOf(e.p, e.tid), SentOf(e.p, e.tid), OutboxOf(routes, e.p, e.tid);
    assert CopyOf(routes, e.p, e.tid, inbox) && CopyOf(routes, e.p, e.tid, sent) && CopyOf(routes, e.p, e.tid, outbox);
    PromotedCopiesStay(run, events, routes, true, j, n, inbox);
    PromotedCopiesStay(run, events, routes, true, j, n, sent);
    PromotedCopiesStay(run, events, routes, true, j, n, outbox);
    assert events[n].name == outbox.name && events[n].user == outbox.user;
    hide EvictedBetween, Writes, Untouched;
    assert run[n + 1] == Evict(run[n], routes, outbox.user, outbox.name);
    EvictLeaves(run[n], routes, outbox.user, outbox.name);
  }

  lemma {:induction false} GoneUntilOpened(run: seq<Files>, events: seq<Event>, routes: Routes, evicting: bool,
                                          p: Path, j: nat, n: nat)
    requires IsHistory(run, events, routes, evicting) && j <= n < |run| && p !in run[j] && '#' !in p.name
    requires forall i :: j <= i < n ==> !(events[i].Open? && p == Path(events[i].user, "inbox", events[i].name))
    ensures p !in run[n]
  {
    if j < n {
      GoneUntilOpened(run, events, routes, evicting, p, j, n - 1);
      var e := events[n - 1];
      if e.Promote? {
        assert Tracked(e.p.name, e.tid)[|e.p.name|] == '#';
        assert !CopyOf(routes, e.p, e.tid, p);
      }
    }
  }

  /** One upload is promoted once: a name is promoted again only after it has been opened again. */
  lemma PromotedOnce(run: seq<Files>, events: seq<Event>, routes: Routes, evicting: bool, i: nat, j: nat)
    requires IsHistory(run, events, routes, evicting) && i < j < |events|
    requires events[i].Promote? && events[j].Promote? && events[i].p == events[j].p
    ensures exists k :: i < k < j && events[k].Open? && events[i].p == Path(events[k].user, "inbox", events[k].name)
  {
    var e := events[i];
    assert CanHappen(run[i], e) && CanHappen(run[j], events[j]);
    assert Tracked(e.p.name, e.tid)[|e.p.name|] == '#';
    PromoteOneEffect(run[i], routes, e.p, e.tid, e.now);
    if forall k :: i < k < j ==> !(events[k].Open? && e.p == Path(events[k].user, "inbox", events[k].name)) {
      GoneUntilOpened(run, events, routes, evicting, e.p, i + 1, j);
    }
  }
}
