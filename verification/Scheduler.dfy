/** Stored schedules and the sweep that fires them. Times and intervals are nanoseconds. */
module Scheduler {

  import opened Collections

  /** `every` is zero for a one-shot schedule. */
  datatype Schedule = Schedule(runAt: int, every: nat)
  datatype Entry = Entry(id: string, schedule: Schedule)
  datatype Firing = Firing(id: string, due: int, at: int)

  /** What one sweep meets: the clock, whether a run is active, whether starting a run and saving
      a file succeed, and the ids whose file cannot be removed. */
  datatype Round = Round(now: int, active: bool, starts: bool, saves: bool, stuck: set<string>)

  // ---------------------------------------------------------------- ids

  predicate IsSpace(c: char) {
    var n := c as int;
    || 9 <= n <= 13 || n in {0x20, 0x85, 0xA0, 0x1680, 0x2028, 0x2029, 0x202F, 0x205F, 0x3000}
    || 0x2000 <= n <= 0x200A
  }

  function Trim(s: string): string
    decreases |s|
  {
    if s == "" then ""
    else if IsSpace(s[0]) then Trim(s[1..])
    else if IsSpace(s[|s| - 1]) then Trim(s[..|s| - 1])
    else s
  }

  /** The id under which a file may be removed, or "" when the id is refused. */
  function SanitizeID(raw: string): string {
    var id := Trim(raw);
    if id == "" || '/' in id || '\\' in id || ':' in id || id[0] == '.' then "" else id
  }

  /** `core` is `raw` less the spaces around it. */
  ghost predicate IsCore(raw: string, before: string, core: string, after: string) {
    && raw == before + core + after
    && (forall i :: 0 <= i < |before| ==> IsSpace(before[i])) && (forall i :: 0 <= i < |after| ==> IsSpace(after[i]))
    && (core != "" ==> !IsSpace(core[0]) && !IsSpace(core[|core| - 1]))
  }

  lemma {:induction false} TrimIsCore(raw: string, before: string, core: string, after: string)
    requires IsCore(raw, before, core, after)
    ensures Trim(raw) == core
    decreases |raw|
  {
    hide IsSpace;
    if before != "" {
      assert raw[1..] == before[1..] + core + after;
      TrimIsCore(raw[1..], before[1..], core, after);
    } else if core == "" && after != "" {
      assert raw == after && raw[1..] == "" + core + after[1..];
      TrimIsCore(raw[1..], "", core, after[1..]);
    } else if after != "" {
      assert raw[0] == core[0] && raw[..|raw| - 1] == "" + core + after[..|after| - 1];
      TrimIsCore(raw[..|raw| - 1], "", core, after[..|after| - 1]);
    } else {
      assert raw == core;
    }
  }

  lemma {:induction false} HasCore(raw: string) returns (before: string, after: string)
    ensures IsCore(raw, before, Trim(raw), after)
    decreases |raw|
  {
    hide IsSpace;
    before, after := "", "";
    if raw != "" && IsSpace(raw[0]) {
      before, after := HasCore(raw[1..]);
      before := [raw[0]] + before;
      assert raw == [raw[0]] + raw[1..];
    } else if raw != "" && IsSpace(raw[|raw| - 1]) {
      before, after := HasCore(raw[..|raw| - 1]);
      assert raw == raw[..|raw| - 1] + [raw[|raw| - 1]];
      after := after + [raw[|raw| - 1]];
    }
  }

  /** The name of a file of the directory itself, and not a hidden one. */
  predicate IsPlainName(name: string) {
    && name != "" && name[0] != '.'
    && forall i :: 0 <= i < |name| ==> name[i] != '/' && name[i] != '\\' && name[i] != ':'
  }

  /** What may be removed for `raw` is exactly the file it names once the spaces around it are gone, and only a
      plain file of the directory. */
  lemma OnlyPlainNamesPass(raw: string, before: string, core: string, after: string)
    requires IsCore(raw, before, core, after)
    ensures SanitizeID(raw) == if IsPlainName(core) then core else ""
  {
    TrimIsCore(raw, before, core, after);
  }

  predicate Clean(id: string) {
    id != "" && SanitizeID(id) == id
  }

  /** Ids are handed out as "sched-" followed by a decimal timestamp; removal never refuses one. */
  lemma GeneratedIdsAreClean(digits: string)
    requires forall i :: 0 <= i < |digits| ==> '0' <= digits[i] <= '9'
    ensures Clean("sched-" + digits)
  {
  }

  // ---------------------------------------------------------------- recurrence

  /** The first of `next`, `next + every`, ... after `now`. */
  function Advance(next: int, every: nat, now: int): int
    requires every > 0
    decreases now - next
  {
    if next > now then next else Advance(next + every, every, now)
  }

  /** A recurring schedule due at `due` and fired at `now` comes back at the least later point of
      its own grid. */
  lemma {:induction false} AdvanceLeast(next: int, every: nat, now: int)
    requires every > 0
    ensures Advance(next, every, now) > now
    ensures exists k: nat :: Advance(next, every, now) == next + k * every
    ensures forall k: nat :: next + k * every > now ==> Advance(next, every, now) <= next + k * every
    decreases now - next
  {
    if next > now {
      assert next == next + 0 * every;
      forall k: nat ensures next <= next + k * every {
        GridRises(k, every);
      }
    } else {
      AdvanceLeast(next + every, every, now);
      var r := Advance(next, every, now);
      var m: nat :| r == next + every + m * every;
      Shift(next, m, every);
      assert r == next + (m + 1) * every;
      forall k: nat | next + k * every > now ensures r <= next + k * every {
        if k != 0 {
          Shift(next, k - 1, every);
        }
      }
    }
  }

  lemma GridRises(k: nat, every: nat)
    ensures k * every >= 0
  {
  }

  lemma Shift(next: int, k: nat, every: nat)
    ensures next + every + k * every == next + (k + 1) * every
  {
  }

  // ---------------------------------------------------------------- one sweep

  function Removed(entries: map<string, Schedule>, id: string, stuck: set<string>): map<string, Schedule> {
    var clean := SanitizeID(id);
    if clean == "" || clean in stuck then entries else entries - {clean}
  }

  /** The store after `e` has fired: advanced and saved if it recurs, removed otherwise. */
  function Settled(entries: map<string, Schedule>, e: Entry, round: Round): map<string, Schedule> {
    if e.schedule.every > 0 && round.saves then
      var next := Advance(e.schedule.runAt + e.schedule.every, e.schedule.every, round.now);
      entries[e.id := e.schedule.(runAt := next)]
    else
      Removed(entries, e.id, round.stuck)
  }

  datatype Outcome = Outcome(entries: map<string, Schedule>, fired: Option<Firing>)

  /** One pass over a listing taken earlier. */
  function Swept(entries: map<string, Schedule>, startedAt: int, listing: seq<Entry>, round: Round): Outcome {
    if listing == [] then
      Outcome(entries, None)
    else
      var e := listing[0];
      if e.schedule.runAt < startedAt then
        Swept(Removed(entries, e.id, round.stuck), startedAt, listing[1..], round)
      else if round.now < e.schedule.runAt then
        Swept(entries, startedAt, listing[1..], round)
      else if round.active then
        Outcome(entries, None)
      else if !round.starts then
        Outcome(Removed(entries, e.id, round.stuck), None)
      else
        Outcome(Settled(entries, e, round), Some(Firing(e.id, e.schedule.runAt, round.now)))
  }

  /** One file per schedule, keyed by id. */
  class ScheduleStore {
    var entries: map<string, Schedule>
    const startedAt: int

    constructor (startedAt: int)
      ensures this.startedAt == startedAt && entries == map[]
    {
      this.startedAt := startedAt;
      entries := map[];
    }

    method Save(e: Entry, succeeds: bool) returns (ok: bool)
      modifies this`entries
      ensures ok == succeeds
      ensures entries == if ok then old(entries)[e.id := e.schedule] else old(entries)
    {
      if succeeds {
        entries := entries[e.id := e.schedule];
      }
      return succeeds;
    }

    method Delete(id: string, stuck: set<string>) returns (ok: bool)
      modifies this`entries
      ensures ok == (SanitizeID(id) != "" && SanitizeID(id) !in stuck)
      ensures entries == Removed(old(entries), id, stuck)
    {
      var clean := SanitizeID(id);
      if clean == "" || clean in stuck {
        return false;
      }
      entries := entries - {clean};
      return true;
    }

    method Sweep(listing: seq<Entry>, round: Round) returns (fired: Option<Firing>)
      modifies this`entries
      ensures Outcome(entries, fired) == Swept(old(entries), startedAt, listing, round)
    {
      var i := 0;
      while i < |listing|
        invariant 0 <= i <= |listing|
        invariant Swept(entries, startedAt, listing[i..], round) == Swept(old(entries), startedAt, listing, round)
      {
        var sch := listing[i];
        assert listing[i..][1..] == listing[i + 1..];
        if sch.schedule.runAt < startedAt {
          var _ := Delete(sch.id, round.stuck);
        } else if round.now >= sch.schedule.runAt {
          if round.active {
            return None;
          }
          if !round.starts {
            var _ := Delete(sch.id, round.stuck);
            return None;
          }
          if sch.schedule.every > 0 {
            var next := NextRun(sch.schedule.runAt, sch.schedule.every, round.now);
            var saved := Save(Entry(sch.id, sch.schedule.(runAt := next)), round.saves);
            if !saved {
              var _ := Delete(sch.id, round.stuck);
            }
          } else {
            var _ := Delete(sch.id, round.stuck);
          }
          return Some(Firing(sch.id, sch.schedule.runAt, round.now));
        }
        i := i + 1;
      }
      return None;
    }
  }

  method NextRun(runAt: int, every: nat, now: int) returns (next: int)
    requires every > 0
    ensures next == Advance(runAt + every, every, now)
  {
    next := runAt + every;
    while next <= now
      invariant Advance(next, every, now) == Advance(runAt + every, every, now)
      decreases now - next
    {
      next := next + every;
    }
  }

  // ---------------------------------------------------------------- what one sweep fires

  ghost predicate Sorted(listing: seq<Entry>) {
    forall i, j :: 0 <= i < j < |listing| ==> listing[i].schedule.runAt <= listing[j].schedule.runAt
  }

  ghost predicate CleanIds(listing: seq<Entry>) {
    forall i :: 0 <= i < |listing| ==> Clean(listing[i].id)
  }

  predicate Due(schedule: Schedule, startedAt: int, now: int) {
    startedAt <= schedule.runAt <= now
  }

  ghost predicate SomeDue(listing: seq<Entry>, startedAt: int, now: int) {
    exists i :: 0 <= i < |listing| && Due(listing[i].schedule, startedAt, now)
  }

  ghost predicate FiredFrom(listing: seq<Entry>, startedAt: int, now: int, f: Firing, i: nat)
    requires i < |listing|
  {
    && f == Firing(listing[i].id, listing[i].schedule.runAt, now)
    && Due(listing[i].schedule, startedAt, now)
    && forall j :: 0 <= j < |listing| && Due(listing[j].schedule, startedAt, now) ==> f.due <= listing[j].schedule.runAt
  }

  /** A sweep fires exactly when no run is active, the run starts, and something listed is due; it
      then fires the earliest due, never one that is not yet due or was overdue at startup. */
  lemma {:induction false} FiresTheEarliestDue(entries: map<string, Schedule>, startedAt: int,
                                              listing: seq<Entry>, round: Round)
    requires Sorted(listing)
    ensures Swept(entries, startedAt, listing, round).fired.Some?
            <==> !round.active && round.starts && SomeDue(listing, startedAt, round.now)
    ensures Swept(entries, startedAt, listing, round).fired.Some? ==>
              exists i: nat :: i < |listing|
                               && FiredFrom(listing, startedAt, round.now,
                                            Swept(entries, startedAt, listing, round).fired.value, i)
  {
    if listing != [] {
      var e, rest := listing[0], listing[1..];
      if Due(e.schedule, startedAt, round.now) {
        if !round.active && round.starts {
          assert FiredFrom(listing, startedAt, round.now, Firing(e.id, e.schedule.runAt, round.now), 0);
        }
      } else {
        var left := if e.schedule.runAt < startedAt then Removed(entries, e.id, round.stuck) else entries;
        FiresTheEarliestDue(left, startedAt, rest, round);
        var out := Swept(left, startedAt, rest, round);
        SkipFirst(listing, startedAt, round.now);
        if out.fired.Some? {
          var i: nat :| i < |rest| && FiredFrom(rest, startedAt, round.now, out.fired.value, i);
          LaterIndex(listing, startedAt, round.now, out.fired.value, i);
        }
      }
    }
  }

  lemma SkipFirst(listing: seq<Entry>, startedAt: int, now: int)
    requires listing != [] && !Due(listing[0].schedule, startedAt, now)
    ensures SomeDue(listing, startedAt, now) <==> SomeDue(listing[1..], startedAt, now)
  {
  }

  lemma LaterIndex(listing: seq<Entry>, startedAt: int, now: int, f: Firing, i: nat)
    requires listing != [] && !Due(listing[0].schedule, startedAt, now)
    requires i < |listing| - 1 && FiredFrom(listing[1..], startedAt, now, f, i)
    ensures FiredFrom(listing, startedAt, now, f, i + 1)
  {
  }

  /** A firing leaves its own occurrence behind exactly when the file neither could be saved over
      nor could be removed. */
  lemma OccurrenceSurvivesIff(entries: map<string, Schedule>, e: Entry, round: Round)
    requires e.id in entries && entries[e.id] == e.schedule && Clean(e.id) && e.schedule.runAt <= round.now
    ensures (e.id in Settled(entries, e, round) && Settled(entries, e, round)[e.id].runAt == e.schedule.runAt)
            <==> e.id in round.stuck && (e.schedule.every == 0 || !round.saves)
  {
    if e.schedule.every > 0 {
      AdvanceLeast(e.schedule.runAt + e.schedule.every, e.schedule.every, round.now);
    }
  }

  /** Nothing a sweep does invents a schedule: an id left in the store holds what it held, or, if
      it is the one that fired, a time after `now`. */
  ghost predicate Explained(before: map<string, Schedule>, out: Outcome, now: int) {
    forall id :: id in out.entries ==>
                   || (out.fired.Some? && out.fired.value.id == id && out.entries[id].runAt > now)
                   || (id in before && out.entries[id] == before[id])
  }

  ghost predicate FiredMovesOn(out: Outcome, now: int) {
    out.fired.Some? && out.fired.value.id in out.entries ==> out.entries[out.fired.value.id].runAt > now
  }

  lemma SettledMovesOn(entries: map<string, Schedule>, e: Entry, round: Round)
    requires Clean(e.id)
    ensures forall id :: id in Settled(entries, e, round) ==>
                           || (id == e.id && Settled(entries, e, round)[id].runAt > round.now)
                           || (id in entries && Settled(entries, e, round)[id] == entries[id])
    ensures e.id !in round.stuck || (e.schedule.every > 0 && round.saves) ==>
              (e.id in Settled(entries, e, round) ==> Settled(entries, e, round)[e.id].runAt > round.now)
  {
    if e.schedule.every > 0 {
      AdvanceLeast(e.schedule.runAt + e.schedule.every, e.schedule.every, round.now);
    }
  }

  lemma {:induction false} SweepExplained(entries: map<string, Schedule>, startedAt: int,
                                         listing: seq<Entry>, round: Round)
    requires CleanIds(listing)
    ensures Explained(entries, Swept(entries, startedAt, listing, round), round.now)
    ensures Unstuck(Swept(entries, startedAt, listing, round), round.stuck) ==>
              FiredMovesOn(Swept(entries, startedAt, listing, round), round.now)
  {
    if listing != [] {
      var e, rest := listing[0], listing[1..];
      if e.schedule.runAt < startedAt {
        SweepExplained(Removed(entries, e.id, round.stuck), startedAt, rest, round);
      } else if round.now < e.schedule.runAt {
        SweepExplained(entries, startedAt, rest, round);
      } else if !round.active && round.starts {
        SettledMovesOn(entries, e, round);
      }
    }
  }

  predicate Unstuck(out: Outcome, stuck: set<string>) {
    out.fired.Some? ==> out.fired.value.id !in stuck
  }

  /** Schedules that were overdue when the server came up are dropped, every one, by any sweep
      that can remove their files. */
  lemma {:induction false} OverdueAtStartupDropped(entries: map<string, Schedule>, startedAt: int,
                                                  listing: seq<Entry>, round: Round, k: nat)
    requires Sorted(listing) && CleanIds(listing)
    requires k < |listing| && listing[k].schedule.runAt < startedAt && listing[k].id !in round.stuck
    requires forall i :: 0 <= i < |listing| && i != k ==> listing[i].id != listing[k].id
    ensures listing[k].id !in Swept(entries, startedAt, listing, round).entries
  {
    var rest := listing[1..];
    assert listing[0].schedule.runAt < startedAt;
    var left := Removed(entries, listing[0].id, round.stuck);
    if k == 0 {
      StaysGone(left, startedAt, rest, round, listing[0].id);
    } else {
      assert rest[k - 1] == listing[k];
      OverdueAtStartupDropped(left, startedAt, rest, round, k - 1);
    }
  }

  lemma {:induction false} StaysGone(entries: map<string, Schedule>, startedAt: int,
                                    listing: seq<Entry>, round: Round, id: string)
    requires id !in entries
    requires forall i :: 0 <= i < |listing| ==> listing[i].id != id
    ensures id !in Swept(entries, startedAt, listing, round).entries
  {
    if listing != [] {
      var e, rest := listing[0], listing[1..];
      if e.schedule.runAt < startedAt {
        StaysGone(Removed(entries, e.id, round.stuck), startedAt, rest, round, id);
      } else if round.now < e.schedule.runAt {
        StaysGone(entries, startedAt, rest, round, id);
      }
    }
  }

  // ---------------------------------------------------------------- a sweep in stages

  ghost predicate DistinctIds(listing: seq<Entry>) {
    forall i, j :: 0 <= i < j < |listing| ==> listing[i].id != listing[j].id
  }

  ghost predicate Lists(listing: seq<Entry>, id: string) {
    exists i :: 0 <= i < |listing| && listing[i].id == id
  }

  /** A listing holds every stored schedule once, by due time; equal times come in any order. */
  ghost predicate IsListing(listing: seq<Entry>, entries: map<string, Schedule>) {
    && Sorted(listing) && CleanIds(listing) && DistinctIds(listing)
    && (forall i :: 0 <= i < |listing| ==> listing[i].id in entries && entries[listing[i].id] == listing[i].schedule)
    && (forall id :: id in entries ==> Lists(listing, id))
  }

  datatype Found = Found(entries: map<string, Schedule>, due: Option<Entry>)

  /** A sweep up to the first due schedule: what was overdue at startup is dropped, what is not yet due
      passed over. */
  function Scanned(entries: map<string, Schedule>, startedAt: int, listing: seq<Entry>, now: int, stuck: set<string>): Found {
    if listing == [] then
      Found(entries, None)
    else
      var e := listing[0];
      if e.schedule.runAt < startedAt then Scanned(Removed(entries, e.id, stuck), startedAt, listing[1..], now, stuck)
      else if now < e.schedule.runAt then Scanned(entries, startedAt, listing[1..], now, stuck)
      else Found(entries, Some(e))
  }

  /** A whole sweep is that scan, then the look for an active run, the start, and the settling. */
  lemma {:induction false} SweptInStages(entries: map<string, Schedule>, startedAt: int, listing: seq<Entry>, round: Round)
    ensures var f := Scanned(entries, startedAt, listing, round.now, round.stuck);
            Swept(entries, startedAt, listing, round)
            == if f.due.None? || round.active then Outcome(f.entries, None)
               else if !round.starts then Outcome(Removed(f.entries, f.due.value.id, round.stuck), None)
               else Outcome(Settled(f.entries, f.due.value, round),
                            Some(Firing(f.due.value.id, f.due.value.schedule.runAt, round.now)))
  {
    if listing != [] {
      var e, rest := listing[0], listing[1..];
      if e.schedule.runAt < startedAt {
        SweptInStages(Removed(entries, e.id, round.stuck), startedAt, rest, round);
      } else if round.now < e.schedule.runAt {
        SweptInStages(entries, startedAt, rest, round);
      }
    }
  }

  /** The scan finds a listed schedule that is due, and only takes entries away. */
  lemma {:induction false} ScanFinds(entries: map<string, Schedule>, startedAt: int, listing: seq<Entry>, now: int, stuck: set<string>)
    ensures var f := Scanned(entries, startedAt, listing, now, stuck);
            && (f.due.Some? ==> f.due.value in listing && Due(f.due.value.schedule, startedAt, now))
            && forall id :: id in f.entries ==> id in entries && f.entries[id] == entries[id]
  {
    if listing != [] {
      var e, rest := listing[0], listing[1..];
      if e.schedule.runAt < startedAt {
        ScanFinds(Removed(entries, e.id, stuck), startedAt, rest, now, stuck);
      } else if now < e.schedule.runAt {
        ScanFinds(entries, startedAt, rest, now, stuck);
      }
    }
  }

  /** `id` is the first listed schedule that was not overdue at startup. */
  ghost predicate FirstUpAt(listing: seq<Entry>, startedAt: int, id: string, k: int) {
    && 0 <= k < |listing| && listing[k].id == id && listing[k].schedule.runAt >= startedAt
    && forall j :: 0 <= j < k ==> listing[j].schedule.runAt < startedAt
  }

  /** It is also due: the one the sweep will fire if it fires any. */
  ghost predicate NextToFire(listing: seq<Entry>, startedAt: int, now: int, id: string) {
    exists k :: FirstUpAt(listing, startedAt, id, k) && listing[k].schedule.runAt <= now
  }

  lemma {:induction false} ScanFindsNext(entries: map<string, Schedule>, startedAt: int, listing: seq<Entry>, now: int,
                                        stuck: set<string>, id: string)
    requires Sorted(listing)
    ensures var f := Scanned(entries, startedAt, listing, now, stuck);
            f.due.Some? && f.due.value.id == id <==> NextToFire(listing, startedAt, now, id)
  {
    if listing != [] {
      var e, rest := listing[0], listing[1..];
      if e.schedule.runAt < startedAt {
        ScanFindsNext(Removed(entries, e.id, stuck), startedAt, rest, now, stuck, id);
        NextInRest(listing, startedAt, now, id);
      } else if now < e.schedule.runAt {
        NothingDueYet(entries, startedAt, listing, now, stuck);
        forall k | FirstUpAt(listing, startedAt, id, k) ensures listing[k].schedule.runAt > now {
        }
      } else {
        forall k | FirstUpAt(listing, startedAt, id, k) ensures k == 0 {
        }
        assert e.id == id ==> FirstUpAt(listing, startedAt, id, 0);
      }
    }
  }

  lemma NextInRest(listing: seq<Entry>, startedAt: int, now: int, id: string)
    requires listing != [] && listing[0].schedule.runAt < startedAt
    ensures NextToFire(listing[1..], startedAt, now, id) <==> NextToFire(listing, startedAt, now, id)
  {
    var rest := listing[1..];
    assert forall j :: 0 < j < |listing| ==> listing[j] == rest[j - 1];
    if k :| FirstUpAt(rest, startedAt, id, k) && rest[k].schedule.runAt <= now {
      assert FirstUpAt(listing, startedAt, id, k + 1);
    }
    if k :| FirstUpAt(listing, startedAt, id, k) && listing[k].schedule.runAt <= now {
      assert FirstUpAt(rest, startedAt, id, k - 1);
    }
  }

  /** A scan before everything listed is due finds nothing and changes nothing. */
  lemma {:induction false} NothingDueYet(entries: map<string, Schedule>, startedAt: int, listing: seq<Entry>, now: int, stuck: set<string>)
    requires forall i :: 0 <= i < |listing| ==> listing[i].schedule.runAt >= startedAt && listing[i].schedule.runAt > now
    ensures Scanned(entries, startedAt, listing, now, stuck) == Found(entries, None)
  {
    if listing != [] {
      NothingDueYet(entries, startedAt, listing[1..], now, stuck);
    }
  }
}
