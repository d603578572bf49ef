/** Matching uploaded names to the renamed `<basename>#<id>` the server leaves in the sent folder. */
module Watcher {

  import opened Collections
  import opened TrackedNames

  /** `serial` numbers the registrations; it is not part of the key. */
  datatype Entry = Entry(serial: nat, user: string, basename: string, deadline: int)

  /** A result without a track id is a timeout. */
  datatype Result = Result(entry: Entry, trackID: Option<string>, at: int)

  const CHANNEL := 512

  function KeyOf(e: Entry): string {
    UserKey(e.user, e.basename)
  }

  // ---------------------------------------------------------------- reading a listing

  function PrefixMap(names: seq<string>): map<string, string> {
    if names == [] then map[]
    else
      var m, name := PrefixMap(names[..|names| - 1]), names[|names| - 1];
      var i := Hash(name);
      if IsRouted(name) then m[name[..i] := name[i + 1..]] else m
  }

  predicate NamesIt(name: string, basename: string) {
    |basename| < |name| && name[..|basename|] == basename && name[|basename|] == '#'
  }

  /** The listing's last name `<basename>#...`. */
  ghost predicate IsLast(names: seq<string>, basename: string, i: nat) {
    i < |names| && NamesIt(names[i], basename) && forall j :: i < j < |names| ==> !NamesIt(names[j], basename)
  }

  lemma HashOf(name: string, basename: string)
    requires '#' !in basename && basename != ""
    ensures NamesIt(name, basename) <==> IsRouted(name) && name[..Hash(name)] == basename
  {
  }

  /** One map lookup agrees with scanning the listing for the last `<basename>#<id>`. A basename
      that is empty or itself holds a '#' is never found. */
  lemma {:induction false} PrefixMapIsLastMatch(names: seq<string>, basename: string)
    ensures basename in PrefixMap(names)
            <==> basename != "" && '#' !in basename && exists i: nat :: IsLast(names, basename, i)
    ensures basename in PrefixMap(names) ==>
              exists i: nat :: IsLast(names, basename, i) && PrefixMap(names)[basename] == names[i][|basename| + 1..]
  {
    if names != [] {
      var init, name := names[..|names| - 1], names[|names| - 1];
      PrefixMapIsLastMatch(init, basename);
      if basename != "" && '#' !in basename {
        HashOf(name, basename);
        if NamesIt(name, basename) {
          assert IsLast(names, basename, |names| - 1);
        } else {
          LastMovesOn(names, basename);
          if i: nat :| IsLast(init, basename, i) {
            assert IsLast(names, basename, i);
          }
          if i: nat :| IsLast(names, basename, i) {
            assert IsLast(init, basename, i);
          }
        }
      }
    }
  }

  lemma LastMovesOn(names: seq<string>, basename: string)
    requires names != [] && !NamesIt(names[|names| - 1], basename)
    ensures forall i: nat :: IsLast(names, basename, i) <==> IsLast(names[..|names| - 1], basename, i)
  {
  }

  // ---------------------------------------------------------------- the watcher

  /** A send that gives up when the channel is full. */
  function Offer(queue: seq<Result>, r: Result): seq<Result> {
    if |queue| < CHANNEL then queue + [r] else queue
  }

  function Found(entries: seq<Entry>, ids: map<string, string>): seq<Entry> {
    if entries == [] then []
    else
      var e := entries[|entries| - 1];
      Found(entries[..|entries| - 1], ids) + if e.basename in ids then [e] else []
  }

  function Matches(entries: seq<Entry>, ids: map<string, string>, at: int): seq<Result>
    requires forall i :: 0 <= i < |entries| ==> entries[i].basename in ids
  {
    seq(|entries|, i requires 0 <= i < |entries| => Result(entries[i], Some(ids[entries[i].basename]), at))
  }

  lemma {:induction false} FoundAreListed(entries: seq<Entry>, ids: map<string, string>)
    ensures forall i :: 0 <= i < |Found(entries, ids)| ==> Found(entries, ids)[i].basename in ids
    ensures forall e :: e in Found(entries, ids) <==> e in entries && e.basename in ids
  {
    if entries != [] {
      var init := entries[..|entries| - 1];
      FoundAreListed(init, ids);
      assert entries == init + [entries[|entries| - 1]];
    }
  }

  function Least(a: int, b: int): int {
    if a <= b then a else b
  }

  /** The channel after `made` has been offered to it in order: as many as there was room for. */
  ghost predicate Reported(before: seq<Result>, made: seq<Result>, after: seq<Result>) {
    |before| <= CHANNEL && after == before + made[..Least(|made|, CHANNEL - |before|)]
  }

  lemma ReportOne(before: seq<Result>, made: seq<Result>, after: seq<Result>, r: Result)
    requires Reported(before, made, after)
    ensures Reported(before, made + [r], Offer(after, r)) && |Offer(after, r)| <= CHANNEL
  {
  }

  lemma ReportNone(before: seq<Result>)
    requires |before| <= CHANNEL
    ensures Reported(before, [], before)
  {
  }

  lemma NoTimeouts(now: int)
    ensures Timeouts([], now) == []
  {
  }

  lemma TimeoutsMore(entries: seq<Entry>, e: Entry, now: int)
    ensures Timeouts(entries + [e], now) == Timeouts(entries, now) + [Result(e, None, now)]
  {
  }

  lemma MatchesMore(entries: seq<Entry>, e: Entry, ids: map<string, string>, at: int)
    requires e.basename in ids && forall i :: 0 <= i < |entries| ==> entries[i].basename in ids
    ensures Matches(entries + [e], ids, at) == Matches(entries, ids, at) + [Result(e, Some(ids[e.basename]), at)]
  {
  }

  function Timeouts(entries: seq<Entry>, now: int): seq<Result> {
    seq(|entries|, i requires 0 <= i < |entries| => Result(entries[i], None, now))
  }

  ghost predicate Once(entries: seq<Entry>) {
    forall i, j :: 0 <= i < j < |entries| ==> entries[i] != entries[j]
  }

  predicate Awaited(pending: map<string, Entry>, e: Entry) {
    KeyOf(e) in pending && pending[KeyOf(e)] == e
  }

  ghost predicate Kept(before: map<string, Entry>, pending: map<string, Entry>, todo: set<string>, now: int) {
    && (forall k :: k in pending <==> k in before && (k in todo || now <= before[k].deadline))
    && (forall k :: k in pending ==> pending[k] == before[k])
  }

  class PollWatcher {
    var pending: map<string, Entry>
    var results: seq<Result>
    var registered: nat
    const timeout: int

    ghost predicate Valid()
      reads this
    {
      |results| <= CHANNEL && forall k :: k in pending ==> k == KeyOf(pending[k])
    }

    constructor (timeout: int)
      ensures Valid() && pending == map[] && results == [] && registered == 0 && this.timeout == timeout
    {
      this.timeout := timeout;
      pending, results, registered := map[], [], 0;
    }

    /** A second registration under a key that is still pending replaces the first. */
    method Register(user: string, basename: string, now: int)
      requires Valid()
      modifies this
      ensures Valid()
      ensures pending == old(pending)[UserKey(user, basename) := Entry(old(registered), user, basename, now + timeout)]
      ensures registered == old(registered) + 1 && results == old(results)
    {
      pending := pending[UserKey(user, basename) := Entry(registered, user, basename, now + timeout)];
      registered := registered + 1;
    }

    method Send(r: Result)
      requires Valid()
      modifies this`results
      ensures Valid() && results == Offer(old(results), r)
    {
      if |results| < CHANNEL {
        results := results + [r];
      }
    }

    /** The first half of a tick: exactly the overdue entries are `gone`, in the order the map yields
        them, as many of them as fit are reported as timeouts, and the rest are handed on. */
    method Expire(now: int) returns (snapshot: seq<Entry>, ghost gone: seq<Entry>)
      requires Valid()
      modifies this`pending, this`results
      ensures Valid()
      ensures pending == map k | k in old(pending) && now <= old(pending)[k].deadline :: old(pending)[k]
      ensures (forall k :: k in old(pending) ==> now > old(pending)[k].deadline) ==> pending == map[]
      ensures Once(snapshot) && forall e :: e in snapshot <==> Awaited(pending, e)
      ensures Once(gone) && forall e :: e in gone <==> Awaited(old(pending), e) && now > e.deadline
      ensures Reported(old(results), Timeouts(gone, now), results)
    {
      hide KeyOf, Reported, Offer, Timeouts;
      snapshot, gone := [], [];
      ReportNone(results);
      NoTimeouts(now);
      var todo := pending.Keys;
      assert todo == old(pending).Keys;
      while todo != {}
        invariant Valid() && todo <= pending.Keys
        invariant Kept(old(pending), pending, todo, now)
        invariant Once(snapshot) && forall e :: e in snapshot <==> Awaited(pending, e) && KeyOf(e) !in todo
        invariant Once(gone) && forall e :: e in gone <==> Awaited(old(pending), e) && now > e.deadline && KeyOf(e) !in todo
        invariant Reported(old(results), Timeouts(gone, now), results)
        decreases todo
      {
        var k :| k in todo;
        var e := pending[k];
        assert Awaited(pending, e) && Awaited(old(pending), e);
        if now > e.deadline {
          TimeoutsMore(gone, e, now);
          ReportOne(old(results), Timeouts(gone, now), results, Result(e, None, now));
          gone := gone + [e];
          pending := pending - {k};
          Send(Result(e, None, now));
        } else {
          snapshot := snapshot + [e];
        }
        todo := todo - {k};
      }
    }

    /** The second half for one user whose folder could be listed. */
    method Match(entries: seq<Entry>, names: seq<string>, at: int)
      requires Valid()
      modifies this`pending, this`results
      ensures Valid()
      ensures var found := Found(entries, PrefixMap(names));
              && (forall k :: k in pending <==> k in old(pending) && forall e :: e in found ==> KeyOf(e) != k)
              && (forall k :: k in pending ==> pending[k] == old(pending)[k])
      ensures var found := Found(entries, PrefixMap(names));
              && (forall i :: 0 <= i < |found| ==> found[i].basename in PrefixMap(names))
              && Reported(old(results), Matches(found, PrefixMap(names), at), results)
    {
      hide KeyOf, Reported, Offer;
      var ids: map<string, string> := map[];
      ReportNone(results);
      for n := 0 to |names|
        invariant ids == PrefixMap(names[..n])
      {
        assert names[..n + 1][..n] == names[..n];
        var name := names[n];
        var idx := Hash(name);
        if 0 < idx < |name| {
          ids := ids[name[..idx] := name[idx + 1..]];
        }
      }
      assert names[..|names|] == names;
      ghost var found: seq<Entry> := [];
      assert Matches(found, ids, at) == [];
      for n := 0 to |entries|
        invariant Valid() && ids == PrefixMap(names)
        invariant found == Found(entries[..n], ids)
        invariant forall i :: 0 <= i < |found| ==> found[i].basename in ids
        invariant forall k :: k in pending <==> k in old(pending) && forall e :: e in found ==> KeyOf(e) != k
        invariant forall k :: k in pending ==> pending[k] == old(pending)[k]
        invariant Reported(old(results), Matches(found, ids, at), results)
      {
        assert entries[..n + 1][..n] == entries[..n];
        var e := entries[n];
        if e.basename in ids {
          MatchesMore(found, e, ids, at);
          ReportOne(old(results), Matches(found, ids, at), results, Result(e, Some(ids[e.basename]), at));
          found := found + [e];
          pending := pending - {KeyOf(e)};
          Send(Result(e, Some(ids[e.basename]), at));
        }
      }
      assert entries[..|entries|] == entries;
    }

    method PendingCount() returns (n: nat)
      ensures n == |pending|
    {
      return |pending|;
    }
  }
}
