/** How long a due schedule can wait. */
module SchedulerWaiting {

  import opened Collections
  import opened Scheduler

  datatype IdleSweep = IdleSweep(view: seq<Entry>, round: Round)

  /** Sweeps with no run active, no failed start, removable files, and the clock at `r` or later. */
  ghost predicate Idle(entries: map<string, Schedule>, startedAt: int, sweeps: seq<IdleSweep>, r: int)
    decreases |sweeps|
  {
    sweeps != [] ==>
      && IsListing(sweeps[0].view, entries)
      && !sweeps[0].round.active && sweeps[0].round.starts && sweeps[0].round.stuck == {} && sweeps[0].round.now >= r
      && Idle(Swept(entries, startedAt, sweeps[0].view, sweeps[0].round).entries, startedAt, sweeps[1..], r)
  }

  ghost predicate FiresAmong(entries: map<string, Schedule>, startedAt: int, sweeps: seq<IdleSweep>, id: string, r: int)
    decreases |sweeps|
  {
    && sweeps != []
    && var out := Swept(entries, startedAt, sweeps[0].view, sweeps[0].round);
       || out.fired == Some(Firing(id, r, sweeps[0].round.now))
       || FiresAmong(out.entries, startedAt, sweeps[1..], id, r)
  }

  /** The schedules due no later than `r`. */
  function UpTo(entries: map<string, Schedule>, r: int): set<string> {
    set id | id in entries && entries[id].runAt <= r
  }

  lemma UpToShrinks(before: map<string, Schedule>, out: Outcome, now: int, r: int)
    requires Explained(before, out, now) && FiredMovesOn(out, now) && now >= r
    requires out.fired.Some? && out.fired.value.id in before && before[out.fired.value.id].runAt <= r
    ensures |UpTo(out.entries, r)| < |UpTo(before, r)|
  {
    var a, b := UpTo(out.entries, r), UpTo(before, r);
    assert out.fired.value.id in b && out.fired.value.id !in a;
    assert a <= b - {out.fired.value.id};
    SubsetSize(a, b - {out.fired.value.id});
  }

  lemma DueIsSeen(view: seq<Entry>, entries: map<string, Schedule>, startedAt: int, now: int, id: string)
    requires IsListing(view, entries) && id in entries && Due(entries[id], startedAt, now)
    ensures SomeDue(view, startedAt, now)
  {
  }

  lemma EarliestIsEarlier(view: seq<Entry>, entries: map<string, Schedule>, startedAt: int, now: int,
                          id: string, f: Firing, i: nat)
    requires IsListing(view, entries) && id in entries && Due(entries[id], startedAt, now)
    requires i < |view| && FiredFrom(view, startedAt, now, f, i)
    ensures f.id in entries && entries[f.id].runAt == f.due && f.due <= entries[id].runAt
  {
  }

  /** A schedule not stale and not the one fired is still there, unchanged, after an idle sweep. */
  lemma {:induction false} OthersKept(entries: map<string, Schedule>, startedAt: int, listing: seq<Entry>,
                                     round: Round, id: string)
    requires id in entries && entries[id].runAt >= startedAt && CleanIds(listing)
    requires forall i :: 0 <= i < |listing| && listing[i].id == id ==> listing[i].schedule == entries[id]
    requires !round.active && round.starts
    ensures var out := Swept(entries, startedAt, listing, round);
            || (out.fired.Some? && out.fired.value.id == id)
            || (id in out.entries && out.entries[id] == entries[id])
  {
    if listing != [] {
      var e, rest := listing[0], listing[1..];
      if e.schedule.runAt < startedAt {
        OthersKept(Removed(entries, e.id, round.stuck), startedAt, rest, round, id);
      } else if round.now < e.schedule.runAt {
        OthersKept(entries, startedAt, rest, round, id);
      }
    }
  }

  /** With no new entries and no failed start, a due schedule among n fires within n idle sweeps:
      only the schedules due no later than itself can go first, each once. */
  lemma {:induction false} FiresWithin(entries: map<string, Schedule>, startedAt: int, sweeps: seq<IdleSweep>, id: string)
    requires id in entries && startedAt <= entries[id].runAt
    requires Idle(entries, startedAt, sweeps, entries[id].runAt)
    requires |sweeps| >= |UpTo(entries, entries[id].runAt)|
    ensures FiresAmong(entries, startedAt, sweeps, id, entries[id].runAt)
    decreases |sweeps|
  {
    hide Swept, Sorted;
    var r := entries[id].runAt;
    assert id in UpTo(entries, r);
    var view, round := sweeps[0].view, sweeps[0].round;
    var out := Swept(entries, startedAt, view, round);
    FiresTheEarliestDue(entries, startedAt, view, round);
    DueIsSeen(view, entries, startedAt, round.now, id);
    var i: nat :| i < |view| && FiredFrom(view, startedAt, round.now, out.fired.value, i);
    EarliestIsEarlier(view, entries, startedAt, round.now, id, out.fired.value, i);
    OthersKept(entries, startedAt, view, round, id);
    if out.fired.value.id != id {
      SweepExplained(entries, startedAt, view, round);
      UpToShrinks(entries, out, round.now, r);
      FiresWithin(out.entries, startedAt, sweeps[1..], id);
    }
  }

  lemma WithinTheStoreSize(entries: map<string, Schedule>, r: int)
    ensures |UpTo(entries, r)| <= |entries|
  {
    SubsetSize(UpTo(entries, r), entries.Keys);
    assert |entries.Keys| == |entries|;
  }
}
