/**
 The schedule timer (internal/server/scheduler.go). The next occurrence of a cron expression after a
 given time is a function given from outside, which may fail, and the clock is an input.
 */
module Scheduler {
  import opened Prelude
  import opened Text

  datatype Schedule = Schedule(id: string, name: string, cron: string, timezone: string, enabled: bool)
  {
    predicate Manual() { Trim(cron) == "" }

    /** Changes whenever an edit changes when the schedule is due. */
    function Signature(): string { cron + "|" + timezone }
  }

  /** The next occurrence of a schedule, and the signature it was computed from. */
  datatype Pending = Pending(next: int, signature: string)

  type NextFire = (string, string, int) -> Option<int>

  /** Occurrences lie strictly after the time they are asked for. */
  ghost predicate StrictlyLater(nextFire: NextFire)
  {
    forall cron, tz, t :: nextFire(cron, tz, t).Some? ==> nextFire(cron, tz, t).value > t
  }

  /** What a tick leaves pending for a schedule, and the occurrence it fires. */
  datatype Outcome = Outcome(pending: Option<Pending>, fired: Option<int>)

  function Rearmed(sc: Schedule, now: int, nextFire: NextFire): Option<Pending>
  {
    var next := nextFire(sc.cron, sc.timezone, now);
    if next.Some? then Some(Pending(next.value, sc.Signature())) else None
  }

  function Evaluated(p: Option<Pending>, sc: Schedule, now: int, nextFire: NextFire): Outcome
  {
    if !sc.enabled || sc.Manual() then Outcome(None, None)
    else if p.None? || p.value.signature != sc.Signature() then Outcome(Rearmed(sc, now, nextFire), None)
    else if now < p.value.next then Outcome(p, None)
    else Outcome(Rearmed(sc, now, nextFire), Some(p.value.next))
  }

  function ScheduleOf(list: seq<Schedule>, n: nat, id: string): (r: Option<Schedule>)
    requires n <= |list|
    ensures r.Some? ==> r.value.id == id
  {
    if n == 0 then None
    else if list[n - 1].id == id then Some(list[n - 1])
    else ScheduleOf(list, n - 1, id)
  }

  /** A tick as one schedule sees it; a schedule no longer listed is forgotten. */
  function Ticked(p: Option<Pending>, list: seq<Schedule>, id: string, now: int, nextFire: NextFire): Outcome
  {
    var sc := ScheduleOf(list, |list|, id);
    if sc.None? then Outcome(None, None) else Evaluated(p, sc.value, now, nextFire)
  }

  /** The same while the first `n` schedules have been seen. */
  function TickedTo(p: Option<Pending>, list: seq<Schedule>, n: nat, id: string, now: int, nextFire: NextFire): Outcome
    requires n <= |list|
  {
    var sc := ScheduleOf(list, n, id);
    if sc.None? then Outcome(p, None) else Evaluated(p, sc.value, now, nextFire)
  }

  predicate DistinctIds(list: seq<Schedule>) { forall i, j :: 0 <= i < j < |list| ==> list[i].id != list[j].id }

  class ScheduleTimer {
    const nextFire: NextFire
    var state: map<string, Pending>

    function At(id: string): Option<Pending>
      reads this
    {
      if id in state then Some(state[id]) else None
    }

    constructor (nextFire: NextFire)
      ensures this.nextFire == nextFire && state == map[]
    {
      this.nextFire, state := nextFire, map[];
    }

    /** evaluateSchedules; `fired` holds the occurrence for which each schedule is started. */
    method EvaluateSchedules(list: seq<Schedule>, now: int) returns (fired: map<string, int>)
      requires DistinctIds(list)
      modifies this
      ensures forall id :: At(id) == Ticked(old(At(id)), list, id, now, nextFire).pending
      ensures forall id :: (if id in fired then Some(fired[id]) else None) == Ticked(old(At(id)), list, id, now, nextFire).fired
    {
      fired := map[];
      var seen: set<string> := {};
      for n := 0 to |list|
        invariant forall id :: id in seen <==> ScheduleOf(list, n, id).Some?
        invariant forall id :: At(id) == TickedTo(old(At(id)), list, n, id, now, nextFire).pending
        invariant forall id ::
          (if id in fired then Some(fired[id]) else None) == TickedTo(old(At(id)), list, n, id, now, nextFire).fired
      {
        var sc := list[n];
        NotYetSeen(list, n);
        seen := seen + {sc.id};
        var due := EvaluateOne(sc, now);
        if due.Some? {
          fired := fired[sc.id := due.value];
        }
      }
      Prune(seen);
    }

    method EvaluateOne(sc: Schedule, now: int) returns (fired: Option<int>)
      modifies this
      ensures At(sc.id) == Evaluated(old(At(sc.id)), sc, now, nextFire).pending
      ensures fired == Evaluated(old(At(sc.id)), sc, now, nextFire).fired
      ensures forall id :: id != sc.id ==> At(id) == old(At(id))
    {
      fired := None;
      if !sc.enabled || sc.Manual() {
        state := state - {sc.id};
        return;
      }
      if sc.id in state && state[sc.id].signature == sc.Signature() {
        if now < state[sc.id].next {
          return;
        }
        fired := Some(state[sc.id].next);
      }
      var next := nextFire(sc.cron, sc.timezone, now);
      if next.None? {
        state := state - {sc.id};
      } else {
        state := state[sc.id := Pending(next.value, sc.Signature())];
      }
    }

    /** Forgets schedules that were deleted. */
    method Prune(seen: set<string>)
      modifies this
      ensures forall id :: At(id) == if id in seen then old(At(id)) else None
    {
      var todo := state.Keys;
      while todo != {}
        invariant todo <= old(state).Keys
        invariant forall id :: At(id) == if id !in seen && id !in todo then None else old(At(id))
        decreases |todo|
      {
        var id :| id in todo;
        todo := todo - {id};
        if id !in seen {
          state := state - {id};
        }
      }
    }
  }

  lemma {:induction false} NotYetSeen(list: seq<Schedule>, n: nat)
    requires n < |list| && DistinctIds(list)
    ensures ScheduleOf(list, n, list[n].id).None?
  {
    NotAmong(list, n, list[n].id);
  }

  lemma {:induction false} NotAmong(list: seq<Schedule>, n: nat, id: string)
    requires n <= |list| && forall i :: 0 <= i < n ==> list[i].id != id
    ensures ScheduleOf(list, n, id).None?
  {
    if n > 0 {
      NotAmong(list, n - 1, id);
    }
  }

  // --- Runs ---------------------------------------------------------------------------

  /** Ticks, each with the schedules as they are then and the time. */
  datatype Run = Start | Tick(before: Run, list: seq<Schedule>, now: int)

  function PendingAfter(run: Run, id: string, nextFire: NextFire): Option<Pending>
  {
    if run.Start? then None else Ticked(PendingAfter(run.before, id, nextFire), run.list, id, run.now, nextFire).pending
  }

  function FiredAt(run: Run, id: string, nextFire: NextFire): Option<int>
    requires run.Tick?
  {
    Ticked(PendingAfter(run.before, id, nextFire), run.list, id, run.now, nextFire).fired
  }

  /** The occurrences a schedule was started for, in order. */
  function Occurrences(run: Run, id: string, nextFire: NextFire): seq<int>
  {
    if run.Start? then []
    else
      var fired := FiredAt(run, id, nextFire);
      Occurrences(run.before, id, nextFire) + if fired.Some? then [fired.value] else []
  }

  /** Those since the schedule was last armed anew: first seen, edited or enabled again. */
  function SinceArmed(run: Run, id: string, nextFire: NextFire): seq<int>
  {
    if run.Start? then []
    else
      var fired := FiredAt(run, id, nextFire);
      var was, after := PendingAfter(run.before, id, nextFire), PendingAfter(run, id, nextFire);
      if fired.Some? then SinceArmed(run.before, id, nextFire) + [fired.value]
      else if was.Some? && after == was then SinceArmed(run.before, id, nextFire)
      else []
  }

  predicate Rising(s: seq<int>) { forall i, j :: 0 <= i < j < |s| ==> s[i] < s[j] }

  predicate AllBelow(s: seq<int>, bound: int) { forall i :: 0 <= i < |s| ==> s[i] < bound }

  predicate ClockNeverGoesBack(run: Run)
  {
    run.Tick? && run.before.Tick? ==> run.before.now <= run.now && ClockNeverGoesBack(run.before)
  }

  lemma AppendRising(s: seq<int>, x: int)
    requires Rising(s) && AllBelow(s, x)
    ensures Rising(s + [x])
  {
  }

  /** While a schedule is unchanged no occurrence fires twice and those that fire rise, whatever the
      clock does. */
  lemma {:induction false} UnchangedNeverRepeats(run: Run, id: string, nextFire: NextFire)
    requires StrictlyLater(nextFire)
    ensures Rising(SinceArmed(run, id, nextFire))
    ensures PendingAfter(run, id, nextFire).Some? ==>
              AllBelow(SinceArmed(run, id, nextFire), PendingAfter(run, id, nextFire).value.next)
  {
    if run.Tick? {
      UnchangedNeverRepeats(run.before, id, nextFire);
      var fired := FiredAt(run, id, nextFire);
      if fired.Some? {
        AppendRising(SinceArmed(run.before, id, nextFire), fired.value);
      }
    }
  }

  /** With a clock that never goes back the occurrences of a schedule rise over the whole run, however
      it is edited, disabled and enabled again; and none fires before it is due. */
  lemma {:induction false} OccurrencesRise(run: Run, id: string, nextFire: NextFire)
    requires StrictlyLater(nextFire) && ClockNeverGoesBack(run)
    ensures Rising(Occurrences(run, id, nextFire))
    ensures run.Tick? ==> AllBelow(Occurrences(run, id, nextFire), run.now + 1)
    ensures PendingAfter(run, id, nextFire).Some? ==>
              AllBelow(Occurrences(run, id, nextFire), PendingAfter(run, id, nextFire).value.next)
  {
    if run.Tick? {
      OccurrencesRise(run.before, id, nextFire);
      var before, fired := Occurrences(run.before, id, nextFire), FiredAt(run, id, nextFire);
      assert AllBelow(before, run.now + 1);
      if fired.Some? {
        AppendRising(before, fired.value);
      }
    }
  }

  // --- When a schedule fires -----------------------------------------------------------

  lemma {:induction false} ListedIsFound(list: seq<Schedule>, n: nat, i: nat)
    requires i < n <= |list| && DistinctIds(list)
    ensures ScheduleOf(list, n, list[i].id) == Some(list[i])
  {
    if i < n - 1 {
      assert list[n - 1].id != list[i].id;
      ListedIsFound(list, n - 1, i);
    }
  }

  /** The last tick found the schedule enabled, with that cron expression, not blank, and that timezone. */
  predicate Active(run: Run, id: string, cron: string, timezone: string)
  {
    && run.Tick? && Trim(cron) != ""
    && exists i :: 0 <= i < |run.list| && run.list[i].id == id && run.list[i].enabled && run.list[i].cron == cron
                   && run.list[i].timezone == timezone
  }

  predicate Listed(run: Run) { run.Tick? ==> DistinctIds(run.list) && Listed(run.before) }

  lemma ActiveIsFound(run: Run, id: string, c: string, z: string)
    requires Listed(run) && Active(run, id, c, z)
    ensures var sc := ScheduleOf(run.list, |run.list|, id);
            sc.Some? && sc.value.enabled && sc.value.cron == c && sc.value.timezone == z && Trim(c) != ""
  {
    var i :| 0 <= i < |run.list| && run.list[i].id == id && run.list[i].enabled && run.list[i].cron == c && run.list[i].timezone == z;
    ListedIsFound(run.list, |run.list|, i);
  }

  /** A tick that finds the schedule active: what is pending for this expression and timezone waits until it is due
      and fires then; when it fires, and when nothing was pending for them, the next occurrence after now is. */
  lemma {:induction false} ActiveTick(run: Run, id: string, c: string, z: string, nextFire: NextFire)
    requires Listed(run) && Active(run, id, c, z)
    ensures var was, next := PendingAfter(run.before, id, nextFire), nextFire(c, z, run.now);
            var waits := was.Some? && was.value.signature == c + "|" + z;
            && FiredAt(run, id, nextFire) == (if waits && was.value.next <= run.now then Some(was.value.next) else None)
            && PendingAfter(run, id, nextFire) ==
                 if waits && run.now < was.value.next then was
                 else if next.Some? then Some(Pending(next.value, c + "|" + z)) else None
  {
    ActiveIsFound(run, id, c, z);
  }

  /** A tick that does not find the schedule listed, enabled and with a cron expression fires nothing and leaves
      nothing pending. */
  lemma {:induction false} InactiveTick(run: Run, id: string, nextFire: NextFire)
    requires run.Tick? && forall c, z :: !Active(run, id, c, z)
    ensures FiredAt(run, id, nextFire) == None && PendingAfter(run, id, nextFire) == None
  {
    var sc := ScheduleOf(run.list, |run.list|, id);
    if sc.Some? {
      FoundIsListed(run.list, |run.list|, id);
      assert !Active(run, id, sc.value.cron, sc.value.timezone);
    }
  }

  lemma {:induction false} FoundIsListed(list: seq<Schedule>, n: nat, id: string)
    requires n <= |list| && ScheduleOf(list, n, id).Some?
    ensures exists i :: 0 <= i < n && list[i] == ScheduleOf(list, n, id).value
  {
    if list[n - 1].id != id {
      FoundIsListed(list, n - 1, id);
    }
  }

  /** From `armed` to `run` the schedule stayed active with the same expression and timezone, and no tick came as
      late as `due`. */
  predicate NotYetDue(armed: Run, run: Run, id: string, c: string, z: string, due: int)
  {
    run == armed || (run.Tick? && Active(run, id, c, z) && run.now < due && NotYetDue(armed, run.before, id, c, z, due))
  }

  /** What a tick found to be the next occurrence fires at the first tick that comes no earlier, whatever lies
      between, as long as the schedule is not changed. */
  lemma {:induction false} DueFires(armed: Run, run: Run, id: string, c: string, z: string, due: int, list: seq<Schedule>, now: int,
                                    nextFire: NextFire)
    requires Listed(Tick(run, list, now)) && PendingAfter(armed, id, nextFire) == Some(Pending(due, c + "|" + z))
    requires NotYetDue(armed, run, id, c, z, due) && Active(Tick(run, list, now), id, c, z)
    ensures FiredAt(Tick(run, list, now), id, nextFire) == if due <= now then Some(due) else None
  {
    StaysPending(armed, run, id, c, z, due, nextFire);
    ActiveTick(Tick(run, list, now), id, c, z, nextFire);
  }

  lemma {:induction false} StaysPending(armed: Run, run: Run, id: string, c: string, z: string, due: int, nextFire: NextFire)
    requires Listed(run) && NotYetDue(armed, run, id, c, z, due)
    requires PendingAfter(armed, id, nextFire) == Some(Pending(due, c + "|" + z))
    ensures PendingAfter(run, id, nextFire) == Some(Pending(due, c + "|" + z))
  {
    if run != armed {
      StaysPending(armed, run.before, id, c, z, due, nextFire);
      ActiveTick(run, id, c, z, nextFire);
    }
  }

  lemma FirstBar(s: string, m: nat, n: nat)
    requires m < |s| && n < |s| && s[m] == '|' && s[n] == '|'
    requires (forall i :: 0 <= i < m ==> s[i] != '|') && forall i :: 0 <= i < n ==> s[i] != '|'
    ensures m == n
  {
  }

  /** What is pending tells expressions and timezones apart: a cron expression holds no bar. */
  lemma {:induction false} SignaturesAgreeIff(a: Schedule, b: Schedule)
    requires '|' !in a.cron && '|' !in b.cron
    ensures a.Signature() == b.Signature() <==> a.cron == b.cron && a.timezone == b.timezone
  {
    var s, t := a.Signature(), b.Signature();
    assert s[|a.cron|] == '|' && t[|b.cron|] == '|';
    if s == t {
      assert (forall i :: 0 <= i < |a.cron| ==> s[i] == a.cron[i]) && forall i :: 0 <= i < |b.cron| ==> t[i] == b.cron[i];
      FirstBar(s, |a.cron|, |b.cron|);
      assert a.cron == s[..|a.cron|] && b.cron == t[..|b.cron|];
      assert a.timezone == s[|a.cron| + 1..] && b.timezone == t[|b.cron| + 1..];
    }
  }

  predicate Earlier(run: Run, later: Run) { later.Tick? && (run == later.before || Earlier(run, later.before)) }

  lemma {:induction false} FiredIsAmong(run: Run, later: Run, id: string, nextFire: NextFire)
    requires run.Tick? && FiredAt(run, id, nextFire).Some? && (later == run || Earlier(run, later))
    ensures FiredAt(run, id, nextFire).value in Occurrences(later, id, nextFire)
  {
    if later != run {
      FiredIsAmong(run, later.before, id, nextFire);
    }
  }

  /** A later tick fires a later occurrence, with a clock that never goes back. */
  lemma {:induction false} LaterFiresLater(run: Run, later: Run, id: string, nextFire: NextFire)
    requires StrictlyLater(nextFire) && ClockNeverGoesBack(later)
    requires Earlier(run, later) && run.Tick? && FiredAt(run, id, nextFire).Some? && FiredAt(later, id, nextFire).Some?
    ensures FiredAt(run, id, nextFire).value < FiredAt(later, id, nextFire).value
  {
    FiredIsAmong(run, later.before, id, nextFire);
    OccurrencesRise(later, id, nextFire);
    var all, last := Occurrences(later.before, id, nextFire), FiredAt(later, id, nextFire).value;
    var i :| 0 <= i < |all| && all[i] == FiredAt(run, id, nextFire).value;
    assert Occurrences(later, id, nextFire) == all + [last] && (all + [last])[i] == all[i] && (all + [last])[|all|] == last;
  }

  /** Something stayed pending at every tick after `run` up to `later`, and each fired it or left it as it was. */
  predicate NotRearmed(run: Run, later: Run, id: string, nextFire: NextFire)
  {
    later == run
    || (later.Tick? && NotRearmed(run, later.before, id, nextFire) && PendingAfter(later.before, id, nextFire).Some?
        && (FiredAt(later, id, nextFire).Some? || PendingAfter(later, id, nextFire) == PendingAfter(later.before, id, nextFire)))
  }

  lemma {:induction false} FiredIsSinceArmed(run: Run, later: Run, id: string, nextFire: NextFire)
    requires run.Tick? && FiredAt(run, id, nextFire).Some? && NotRearmed(run, later, id, nextFire)
    ensures FiredAt(run, id, nextFire).value in SinceArmed(later, id, nextFire)
  {
    if later != run {
      FiredIsSinceArmed(run, later.before, id, nextFire);
    }
  }

  /** The same with any clock, while the schedule is not armed anew. */
  lemma {:induction false} UnchangedFiresLater(run: Run, later: Run, id: string, nextFire: NextFire)
    requires StrictlyLater(nextFire) && later.Tick? && NotRearmed(run, later.before, id, nextFire)
    requires run.Tick? && FiredAt(run, id, nextFire).Some? && FiredAt(later, id, nextFire).Some?
    ensures FiredAt(run, id, nextFire).value < FiredAt(later, id, nextFire).value
  {
    FiredIsSinceArmed(run, later.before, id, nextFire);
    UnchangedNeverRepeats(later.before, id, nextFire);
  }

  /** The tick computed the occurrence from the schedule as it was then, with the same signature. */
  predicate Armed(run: Run, id: string, nextFire: NextFire, pending: Pending)
  {
    run.Tick?
    && var sc := ScheduleOf(run.list, |run.list|, id);
       sc.Some? && sc.value.enabled && !sc.value.Manual() && sc.value.Signature() == pending.signature
       && nextFire(sc.value.cron, sc.value.timezone, run.now) == Some(pending.next)
  }

  lemma {:induction false} PendingWasArmed(run: Run, id: string, nextFire: NextFire) returns (armed: Run)
    requires PendingAfter(run, id, nextFire).Some?
    ensures (armed == run || Earlier(armed, run)) && Armed(armed, id, nextFire, PendingAfter(run, id, nextFire).value)
  {
    armed := run;
    if PendingAfter(run, id, nextFire) == PendingAfter(run.before, id, nextFire) {
      armed := PendingWasArmed(run.before, id, nextFire);
    }
  }

  /** What was missed while nothing ran is skipped: an occurrence that fires was computed at an earlier
      tick, from the time of that tick and the schedule with the signature it still has. */
  lemma {:induction false} FiringWasPending(run: Run, id: string, nextFire: NextFire) returns (armed: Run)
    requires run.Tick? && FiredAt(run, id, nextFire).Some?
    ensures Earlier(armed, run) && FiredAt(run, id, nextFire).value <= run.now
    ensures var sc := ScheduleOf(run.list, |run.list|, id);
            sc.Some? && Armed(armed, id, nextFire, Pending(FiredAt(run, id, nextFire).value, sc.value.Signature()))
  {
    armed := PendingWasArmed(run.before, id, nextFire);
  }
}
