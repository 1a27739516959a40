/** A tick as a whole, and what a sequence of ticks leaves recorded of a task's schedules. */
module Ticks {
  import opened Models
  import opened Lifecycle
  import opened Queries
  import opened Remote
  import opened Protocol
  import opened PassOrder
  import opened DispatchEffects
  import opened DispatchPass
  import opened ElasticPhases
  import opened PassTrace
  import opened Refresh
  import opened Schedules
  import opened WorkerHealth
  import Cron
  import opened Triggers

  /** Options are untouched, and every task's recorded triggers advance by the claim rule. */
  ghost predicate TriggersAdvanced(start: TaskTable, now: TaskTable, local: (string, int) -> Cron.Moment, minute: int) {
    && now.Keys == start.Keys
    && forall t | t in start :: Advanced(start[t], now[t], local, minute)
  }

  ghost predicate Advanced(before: Task, after: Task, local: (string, int) -> Cron.Moment, minute: int) {
    && after.options == before.options
    && FiredOf(after) == AfterClaim(FiredOf(before), ClaimFor(before, local(before.options.timezone, minute), minute),
       minute)
  }

  lemma {:induction false} ReconciledKeepsTriggers(t: Task, finding: Finding, now: nat)
    ensures Reconciled(t, finding, now).options == t.options && FiredOf(Reconciled(t, finding, now)) == FiredOf(t)
  {
  }

  /** Refreshing and dispatching leave options and recorded triggers alone. */
  lemma {:induction false} TickAdvances(start: TaskTable, scheduled: TaskTable, refreshed: TaskTable, now: TaskTable,
                                        local: (string, int) -> Cron.Moment, minute: int, killed: set<TaskId>,
                                        steps: seq<Action>, probes: seq<Probe>, at: nat, attempts: seq<TaskId>,
                                        pass: seq<Action>)
    requires SchedulesApplied(start, scheduled, local, minute, killed)
    requires Refreshed(scheduled, refreshed, steps, probes, at)
    requires WholePass(refreshed, now, attempts, pass)
    ensures TriggersAdvanced(start, now, local, minute)
  {
    hide Scheduled, Killed, Started, Ordered, Reconciled, ClaimFor, StatusesExplained, Descending;
    forall t | t in start
      ensures Advanced(start[t], now[t], local, minute)
    {
      var m := local(start[t].options.timezone, minute);
      ScheduledRecordsClaim(start[t], m, minute, t in killed);
      if refreshed[t] != scheduled[t] {
        assert Explained(scheduled[t], refreshed[t], t, steps, probes, at);
        var finding :| refreshed[t] == Reconciled(scheduled[t], finding, at);
        ReconciledKeepsTriggers(scheduled[t], finding, at);
      }
      assert SameTask(refreshed[t], now[t]);
    }
  }

  // ----- one tick -----

  /** The three parts of a tick, and the states between them. */
  datatype TickRecord = TickRecord(
    listed: seq<Task>,
    controls: seq<Action>,
    scheduled: World,
    running: seq<Task>,
    turns: seq<Turn>,
    refreshed: World,
    pass: PassRecord,
    dispatching: seq<Action>)

  /** Refreshing records whether workers answered, and observes no GPUs. */
  ghost function RoundNotes(n: Notes, turns: seq<Turn>): Notes {
    Notes(n.looks, n.probes + RoundProbes(turns), n.history)
  }

  lemma {:induction false} RoundNotesAre(n: Notes, turns: seq<Turn>)
    ensures RoundNotes(n, turns) == Notes(n.looks, n.probes + RoundProbes(turns), n.history)
  {
  }

  /** What is on record after the tick. */
  ghost function TickNotes(s: Setting, n: Notes, r: TickRecord): Notes {
    NotesOf(s, RoundNotes(n, r.turns), r.pass)
  }

  ghost function TickSteps(r: TickRecord, at: nat): seq<Action> {
    r.controls + RoundSteps(r.turns, at) + r.dispatching
  }

  ghost predicate TickMade(s: Setting, n: Notes, local: (string, int) -> Cron.Moment, minute: int, start: World,
                           r: TickRecord, now: World) {
    && SortedBy(CreatedKey, r.listed) && Lists(r.listed, start.tasks, Matching(start.tasks, IsScheduled))
    && SchedulesApplied(start.tasks, r.scheduled.tasks, local, minute, Killed(r.controls))
    && SortedBy(StartedKey, r.running) && Lists(r.running, r.scheduled.tasks, WithStatus(r.scheduled.tasks, Running))
    && Reconciles(s.workers, r.scheduled, r.running, r.turns, r.refreshed, s.at)
    && StopsAtFailure(RoundProbes(r.turns))
    && Dispatched(s, RoundNotes(n, r.turns), r.refreshed.tasks, now.tasks, r.pass, r.dispatching)
  }

  /** Refreshing only asks; kills and launches come from the schedules and the pass. */
  ghost function TickRequests(r: TickRecord, local: (string, int) -> Cron.Moment, minute: int): seq<Request> {
    AllRequests(r.listed, local, minute) + PassRequests(r.pass)
  }

  lemma {:induction false} TickIsMade(s: Setting, n: Notes, local: (string, int) -> Cron.Moment, minute: int,
                                      start: World, r: TickRecord, now: World)
    requires SortedBy(CreatedKey, r.listed) && Lists(r.listed, start.tasks, Matching(start.tasks, IsScheduled))
    requires SchedulesApplied(start.tasks, r.scheduled.tasks, local, minute, Killed(r.controls))
    requires SortedBy(StartedKey, r.running)
             && Lists(r.running, r.scheduled.tasks, WithStatus(r.scheduled.tasks, Running))
    requires Reconciles(s.workers, r.scheduled, r.running, r.turns, r.refreshed, s.at)
    requires Refreshed(r.scheduled.tasks, r.refreshed.tasks, RoundSteps(r.turns, s.at), RoundProbes(r.turns), s.at)
    requires StopsAtFailure(RoundProbes(r.turns))
    requires Dispatched(s, RoundNotes(n, r.turns), r.refreshed.tasks, now.tasks, r.pass, r.dispatching)
    ensures TickMade(s, n, local, minute, start, r, now)
    ensures TriggersAdvanced(start.tasks, now.tasks, local, minute)
    ensures TickRequests(r, local, minute) == AllRequests(r.listed, local, minute) + PassRequests(r.pass)
    ensures TickNotes(s, n, r) == NotesOf(s, RoundNotes(n, r.turns), r.pass)
    ensures TickSteps(r, s.at) == r.controls + RoundSteps(r.turns, s.at) + r.dispatching
  {
    hide SortedBy, Lists, SchedulesApplied, Reconciles, Refreshed, StopsAtFailure, Dispatched, TriggersAdvanced, Killed;
    DispatchedOrderly(s, RoundNotes(n, r.turns), r.refreshed.tasks, now.tasks, r.pass, r.dispatching);
    TickAdvances(start.tasks, r.scheduled.tasks, r.refreshed.tasks, now.tasks, local, minute, Killed(r.controls),
                 RoundSteps(r.turns, s.at), RoundProbes(r.turns), s.at, AttemptIds(r.pass.attempts), r.dispatching);
  }

  // ----- sequences of ticks -----

  /** The minutes at which a task's stored schedules are due. */
  ghost function DueMinutes(o: TaskOptions, local: (string, int) -> Cron.Moment): Due {
    Due(iset m: int | IsDue(o.startCron, local(o.timezone, m)) :: m,
        iset m: int | IsDue(o.stopCron, local(o.timezone, m)) :: m)
  }

  /** A task keeps its options and its recorded triggers. */
  ghost predicate Undisturbed(a: TaskTable, b: TaskTable, t: TaskId) {
    t in a && t in b && b[t].options == a[t].options && FiredOf(b[t]) == FiredOf(a[t])
  }

  /** Every task but the edited ones does. */
  ghost predicate SchedulesKept(a: TaskTable, b: TaskTable, edited: set<TaskId>) {
    forall t | t in a && t !in edited :: Undisturbed(a, b, t)
  }

  /** Any number of controls in a row keep what each of them keeps. */
  lemma {:induction false} SchedulesKeptTwice(a: TaskTable, b: TaskTable, c: TaskTable, first: set<TaskId>,
                                              second: set<TaskId>)
    requires SchedulesKept(a, b, first) && SchedulesKept(b, c, second)
    ensures SchedulesKept(a, c, first + second)
    ensures first == second ==> SchedulesKept(a, c, first)
  {
    assert first == second ==> first + second == first;
    forall t | t in a && t !in first + second
      ensures Undisturbed(a, c, t)
    {
      assert Undisturbed(a, b, t) && Undisturbed(b, c, t);
    }
  }

  /** A control that replaces or adds one row keeps the schedules if that row does, or is new or edited. */
  lemma {:induction false} OneRowKeeps(a: TaskTable, row: Task, id: TaskId, edited: set<TaskId>)
    requires id in a && id !in edited ==> row.options == a[id].options && FiredOf(row) == FiredOf(a[id])
    ensures SchedulesKept(a, a[id := row], edited)
  {
  }

  lemma {:induction false} NothingDisturbed(a: TaskTable, edited: set<TaskId>)
    ensures SchedulesKept(a, a, edited)
  {
  }

  /** A paused task joins the queue, whatever else there is stays. */
  ghost function AfterUnpause(a: TaskTable, id: TaskId): TaskTable {
    if id in a && a[id].status == Paused then a[id := Unpaused(a[id])] else a
  }

  function UnpauseSteps(a: TaskTable, id: TaskId): seq<Action> {
    if id in a && a[id].status == Paused then [Unpause(id)] else []
  }

  lemma {:induction false} UnpauseKeeps(a: TaskTable, id: TaskId)
    ensures SchedulesKept(a, AfterUnpause(a, id), {})
    ensures !(id in a && a[id].status in {Paused, Queued}) ==> AfterUnpause(a, id) == a && UnpauseSteps(a, id) == []
  {
  }

  lemma {:induction false} PassKeepsSchedules(s: Setting, n: Notes, start: TaskTable, now: TaskTable, p: PassRecord,
                                              steps: seq<Action>)
    requires Dispatched(s, n, start, now, p, steps)
    ensures SchedulesKept(start, now, {})
  {
    hide PassMade, Killed, Started, Ordered;
    forall t | t in start
      ensures Undisturbed(start, now, t)
    {
      assert SameTask(start[t], now[t]);
    }
  }

  /**
   * The tables before and after each of these ticks. Between two ticks anything may happen to the tables
   * that leaves this one task's options and recorded triggers alone.
   */
  ghost predicate Ticking(before: seq<TaskTable>, after: seq<TaskTable>, ticks: seq<int>,
                          local: (string, int) -> Cron.Moment, t: TaskId)
  {
    && |before| == |ticks| && |after| == |ticks|
    && (forall i | 0 <= i < |ticks| :: t in before[i] && TriggersAdvanced(before[i], after[i], local, ticks[i]))
    && (forall i | 0 < i < |ticks| :: Undisturbed(after[i - 1], before[i], t))
  }

  lemma {:induction false} TickingPrefix(before: seq<TaskTable>, after: seq<TaskTable>, ticks: seq<int>,
                                         local: (string, int) -> Cron.Moment,
                                         t: TaskId, n: nat)
    requires Ticking(before, after, ticks, local, t) && n <= |ticks|
    ensures Ticking(before[..n], after[..n], ticks[..n], local, t)
  {
    hide TriggersAdvanced, Undisturbed;
  }

  lemma {:induction false} OneTick(before: TaskTable, after: TaskTable, local: (string, int) -> Cron.Moment,
                                   minute: int, t: TaskId)
    requires TriggersAdvanced(before, after, local, minute) && t in before
    ensures t in after && after[t].options == before[t].options
    ensures var due := DueMinutes(before[t].options, local);
            && ClaimFor(before[t], local(before[t].options.timezone, minute), minute) ==
               TickClaim(FiredOf(before[t]), minute in due.start, minute in due.stop, minute)
            && FiredOf(after[t]) == AfterClaim(FiredOf(before[t]),
                 TickClaim(FiredOf(before[t]), minute in due.start, minute in due.stop, minute), minute)
  {
    hide IsDue;
    assert Advanced(before[t], after[t], local, minute);
  }

  /** Over any ticks without an edit of the task between them, its recorded triggers follow the firing rule. */
  lemma {:induction false} TicksFollowRule(before: seq<TaskTable>, after: seq<TaskTable>, ticks: seq<int>,
                                           local: (string, int) -> Cron.Moment,
                                           t: TaskId)
    requires Ticking(before, after, ticks, local, t) && ticks != []
    ensures var n := |ticks| - 1;
            && t in after[n]
            && before[n][t].options == after[n][t].options == before[0][t].options
            && FiredOf(before[n][t]) ==
               Ticked(FiredOf(before[0][t]), DueMinutes(before[0][t].options, local), ticks[..n])
            && FiredOf(after[n][t]) == Ticked(FiredOf(before[0][t]), DueMinutes(before[0][t].options, local), ticks)
    decreases |ticks|
  {
    hide TriggersAdvanced, DueMinutes, TickClaim, AfterClaim, ClaimFor;
    var n := |ticks| - 1;
    if n > 0 {
      TickingPrefix(before, after, ticks, local, t, n);
      TicksFollowRule(before[..n], after[..n], ticks[..n], local, t);
      assert Undisturbed(after[n - 1], before[n], t);
    }
    OneTick(before[n], after[n], local, ticks[n], t);
  }

  /**
   * For ticks at non-decreasing minutes after a task was created or edited: a tick claims a trigger exactly
   * when the trigger wins its minute and no earlier tick fell in that minute, whatever other controls,
   * creations and edits of other tasks lie between the ticks.
   */
  lemma {:induction false} ClaimsOncePerMinute(before: seq<TaskTable>, after: seq<TaskTable>, ticks: seq<int>,
                                               local: (string, int) -> Cron.Moment,
                                               t: TaskId, i: nat, trigger: Trigger)
    requires Ticking(before, after, ticks, local, t)
    requires NonDecreasing(ticks) && i < |ticks| && FiredOf(before[0][t]) == FRESH
    ensures before[i][t].options == before[0][t].options
    ensures ClaimFor(before[i][t], local(before[0][t].options.timezone, ticks[i]), ticks[i]) == Some(trigger) <==>
            Wins(DueMinutes(before[0][t].options, local), trigger, ticks[i]) && ticks[i] !in ticks[..i]
  {
    hide TriggersAdvanced, DueMinutes, TickClaim, AfterClaim, ClaimFor, Wins;
    TickingPrefix(before, after, ticks, local, t, i + 1);
    TicksFollowRule(before[..i + 1], after[..i + 1], ticks[..i + 1], local, t);
    OneTick(before[i], after[i], local, ticks[i], t);
    assert ticks[..i + 1][..i] == ticks[..i];
    FiresWhenNew(DueMinutes(before[0][t].options, local), ticks[..i + 1], trigger);
  }
}
