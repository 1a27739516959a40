/** How often a task's schedules fire: `claim_schedule_trigger` under the rule of `_apply_schedules`. */
module Triggers {
  import opened Models
  import opened Lifecycle

  /** The minutes at which a task's triggers last fired. */
  datatype Fired = Fired(start: Option<int>, stop: Option<int>)

  function FiredOf(t: Task): Fired {
    Fired(t.lastStart, t.lastStop)
  }

  function Last(f: Fired, trigger: Trigger): Option<int> {
    if trigger.StartTrigger? then f.start else f.stop
  }

  /** The trigger a tick claims for a task, if any: a due stop shuts out the start, claimed or not. */
  function TickClaim(f: Fired, startDue: bool, stopDue: bool, minute: int): Option<Trigger> {
    if stopDue then
      if f.stop != Some(minute) then Some(StopTrigger) else None
    else if startDue && f.start != Some(minute) then Some(StartTrigger)
    else None
  }

  function AfterClaim(f: Fired, claim: Option<Trigger>, minute: int): Fired {
    match claim
    case None => f
    case Some(StartTrigger) => f.(start := Some(minute))
    case Some(StopTrigger) => f.(stop := Some(minute))
  }

  /** The table's claim guard and update are these functions. */
  lemma ClaimIsTickClaim(t: Task, trigger: Trigger, minute: int)
    ensures Claimable(t, trigger, minute) <==> Last(FiredOf(t), trigger) != Some(minute)
    ensures FiredOf(Claimed(t, trigger, minute)) == AfterClaim(FiredOf(t), Some(trigger), minute)
  {
  }

  /** When a task's schedules are due, by UTC minute. */
  datatype Due = Due(start: iset<int>, stop: iset<int>)

  datatype Firing = Firing(trigger: Trigger, minute: int)

  /** What a sequence of ticks at these minutes leaves recorded. */
  ghost function Ticked(f: Fired, due: Due, ticks: seq<int>): Fired {
    if ticks == [] then f
    else
      var m := ticks[|ticks| - 1];
      var before := Ticked(f, due, ticks[..|ticks| - 1]);
      AfterClaim(before, TickClaim(before, m in due.start, m in due.stop, m), m)
  }

  /** Everything those ticks claim. */
  ghost function Firings(f: Fired, due: Due, ticks: seq<int>): seq<Firing> {
    if ticks == [] then []
    else
      var m := ticks[|ticks| - 1];
      var before := Ticked(f, due, ticks[..|ticks| - 1]);
      var claim := TickClaim(before, m in due.start, m in due.stop, m);
      Firings(f, due, ticks[..|ticks| - 1]) + if claim.Some? then [Firing(claim.value, m)] else []
  }

  const FRESH := Fired(None, None)

  ghost predicate NonDecreasing(s: seq<int>) {
    forall i, j | 0 <= i < j < |s| :: s[i] <= s[j]
  }

  /** A trigger wins a minute when it is due there and is not overridden. */
  ghost predicate Wins(due: Due, trigger: Trigger, minute: int) {
    if trigger.StopTrigger? then minute in due.stop else minute in due.start && minute !in due.stop
  }

  /** The last minute at which a trigger fired is the last tick minute that it won. */
  ghost predicate Remembers(last: Option<int>, due: Due, trigger: Trigger, ticks: seq<int>) {
    && (last.Some? ==> last.value in ticks && Wins(due, trigger, last.value))
    && forall m | m in ticks && Wins(due, trigger, m) :: last.Some? && m <= last.value
  }

  lemma {:induction false} TickKeepsMemory(f: Fired, due: Due, ticks: seq<int>, m: int, trigger: Trigger)
    requires Remembers(Last(f, trigger), due, trigger, ticks)
    requires forall x | x in ticks :: x <= m
    ensures Remembers(Last(AfterClaim(f, TickClaim(f, m in due.start, m in due.stop, m), m), trigger), due, trigger,
            ticks + [m])
  {
  }

  lemma {:induction false} LastIsLatestWin(due: Due, ticks: seq<int>, trigger: Trigger)
    requires NonDecreasing(ticks)
    ensures Remembers(Last(Ticked(FRESH, due, ticks), trigger), due, trigger, ticks)
  {
    if ticks != [] {
      var n := |ticks| - 1;
      LastIsLatestWin(due, ticks[..n], trigger);
      TickKeepsMemory(Ticked(FRESH, due, ticks[..n]), due, ticks[..n], ticks[n], trigger);
      assert ticks == ticks[..n] + [ticks[n]];
    }
  }

  lemma {:induction false} FiresWhenNew(due: Due, ticks: seq<int>, trigger: Trigger)
    requires ticks != [] && NonDecreasing(ticks)
    ensures var n := |ticks| - 1;
            var f := Ticked(FRESH, due, ticks[..n]);
            TickClaim(f, ticks[n] in due.start, ticks[n] in due.stop, ticks[n]) == Some(trigger) <==>
            Wins(due, trigger, ticks[n]) && ticks[n] !in ticks[..n]
  {
    var n := |ticks| - 1;
    LastIsLatestWin(due, ticks[..n], trigger);
    assert forall m | m in ticks[..n] :: m <= ticks[n];
  }

  /**
   * For ticks at non-decreasing times on a task created or edited before them: a stop fires exactly once in
   * each matching minute that has a tick, a start exactly once in each matching minute without a matching
   * stop, and nothing else fires.
   */
  lemma {:induction false} EachMinuteFiresOnce(due: Due, ticks: seq<int>, trigger: Trigger, minute: int)
    requires NonDecreasing(ticks)
    ensures multiset(Firings(FRESH, due, ticks))[Firing(trigger, minute)] ==
            if minute in ticks && Wins(due, trigger, minute) then 1 else 0
  {
    if ticks != [] {
      var n := |ticks| - 1;
      EachMinuteFiresOnce(due, ticks[..n], trigger, minute);
      FiresWhenNew(due, ticks, StartTrigger);
      FiresWhenNew(due, ticks, StopTrigger);
      assert ticks == ticks[..n] + [ticks[n]];
    }
  }

  /** In particular a start never fires in a minute where the stop matches too. */
  lemma {:induction false} StopWins(due: Due, ticks: seq<int>, minute: int)
    requires NonDecreasing(ticks)
    requires minute in due.start && minute in due.stop
    ensures Firing(StartTrigger, minute) !in Firings(FRESH, due, ticks)
  {
    EachMinuteFiresOnce(due, ticks, StartTrigger, minute);
    assert Firing(StartTrigger, minute) !in multiset(Firings(FRESH, due, ticks));
  }
}
