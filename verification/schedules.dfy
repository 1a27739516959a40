/** What one tick's schedules do to a task: `_apply_schedules`, `_scheduled_start`, `_scheduled_stop`. */
module Schedules {
  import opened Models
  import opened Lifecycle
  import opened Queries
  import opened Victims
  import opened Protocol
  import opened Remote
  import Cron
  import opened Triggers

  /** A stored schedule matches the local time; reading it back cannot fail. */
  predicate IsDue(cron: Option<string>, m: Cron.Moment) {
    cron.Some? && Cron.Parse(cron.value).Ok? && Cron.Matches(Cron.Parse(cron.value).value, m)
  }

  function ClaimFor(t: Task, m: Cron.Moment, minute: int): Option<Trigger> {
    TickClaim(FiredOf(t), IsDue(t.options.startCron, m), IsDue(t.options.stopCron, m), minute)
  }

  /**
   * The row after the tick's schedules: the claim is recorded; a claimed start queues a paused task; a
   * claimed stop pauses a queued task, and a running one exactly if its session was killed.
   */
  ghost function Scheduled(before: Task, m: Cron.Moment, minute: int, killed: bool): Task {
    match ClaimFor(before, m, minute)
    case None => before
    case Some(StartTrigger) =>
      var claimed := Claimed(before, StartTrigger, minute);
      if before.status == Paused then Unpaused(claimed) else claimed
    case Some(StopTrigger) =>
      var claimed := Claimed(before, StopTrigger, minute);
      if before.status == Queued || (before.status == Running && killed) then PausedRow(claimed) else claimed
  }

  /** A due stop that has not fired in this minute pauses what is queued, and what runs once its kill succeeded. */
  lemma DueStopPauses(before: Task, m: Cron.Moment, minute: int, killed: bool)
    requires IsDue(before.options.stopCron, m) && before.lastStop != Some(minute)
    ensures var after := Scheduled(before, m, minute, killed);
            && after.lastStop == Some(minute) && after.lastStart == before.lastStart
            && after.status == (match before.status
                                case Queued => Paused
                                case Running => if killed then Paused else Running
                                case _ => before.status)
  {
  }

  /** A due start that has not fired in this minute queues what is paused, unless a stop is due as well. */
  lemma DueStartQueues(before: Task, m: Cron.Moment, minute: int, killed: bool)
    requires IsDue(before.options.startCron, m) && before.lastStart != Some(minute)
    requires !IsDue(before.options.stopCron, m)
    ensures var after := Scheduled(before, m, minute, killed);
            && after.lastStart == Some(minute) && after.lastStop == before.lastStop
            && after.status == (if before.status == Paused then Queued else before.status)
  {
  }

  /** What the schedules ask of a worker: one kill for a claimed stop of a running task, and nothing else. */
  ghost function ScheduleRequests(t: Task, m: Cron.Moment, minute: int): seq<Request> {
    if ClaimFor(t, m, minute) == Some(StopTrigger) && t.status == Running then [KillRequest(SiteOf(t))] else []
  }

  ghost function AllRequests(rows: seq<Task>, local: (string, int) -> Cron.Moment, minute: int): seq<Request> {
    if rows == [] then []
    else
      var n := |rows| - 1;
      AllRequests(rows[..n], local, minute) + ScheduleRequests(rows[n], local(rows[n].options.timezone, minute), minute)
  }

  /** Every task that has a schedule is treated this way, and no other row changes. */
  ghost predicate SchedulesApplied(start: TaskTable, now: TaskTable, local: (string, int) -> Cron.Moment, minute: int,
                                   killed: set<TaskId>)
  {
    && now.Keys == start.Keys
    && forall t | t in start ::
       now[t] == Scheduled(start[t], local(start[t].options.timezone, minute), minute, t in killed)
  }

  /** The same while the walk has got to the `i`-th listed row. */
  ghost predicate AppliedSoFar(start: TaskTable, now: TaskTable, local: (string, int) -> Cron.Moment, minute: int,
                               killed: set<TaskId>,
                               rows: seq<Task>, i: nat)
    requires i <= |rows|
  {
    && now.Keys == start.Keys
    && killed <= IdsOf(rows[..i])
    && (forall t | t in start && start[t] !in rows[..i] :: now[t] == start[t])
    && (forall k | 0 <= k < i :: Treated(now, local, minute, killed, rows[k]))
  }

  ghost predicate Treated(now: TaskTable, local: (string, int) -> Cron.Moment, minute: int, killed: set<TaskId>,
                          t: Task)
  {
    t.id in now && now[t.id] == Scheduled(t, local(t.options.timezone, minute), minute, t.id in killed)
  }

  lemma {:induction false} NowTreated(before: TaskTable, after: TaskTable, local: (string, int) -> Cron.Moment,
                                      minute: int, killed: set<TaskId>, more: set<TaskId>, t: Task)
    requires t.id !in killed
    requires after == before[t.id := Scheduled(t, local(t.options.timezone, minute), minute, t.id in more)]
    ensures Treated(after, local, minute, killed + more, t)
    ensures t.id in after && after == before[t.id := after[t.id]] && after.Keys == before.Keys + {t.id}
  {
    hide Scheduled;
  }

  lemma {:induction false} OtherStaysTreated(before: TaskTable, after: TaskTable,
                                             local: (string, int) -> Cron.Moment, minute: int, killed: set<TaskId>,
                                             more: set<TaskId>, t: Task, id: TaskId)
    requires Treated(before, local, minute, killed, t) && t.id != id && more <= {id}
    requires id in after && after == before[id := after[id]]
    ensures Treated(after, local, minute, killed + more, t)
  {
    hide Scheduled;
  }

  lemma {:induction false} ApplyingBegins(start: TaskTable, local: (string, int) -> Cron.Moment, minute: int,
                                          rows: seq<Task>)
    ensures AppliedSoFar(start, start, local, minute, {}, rows, 0)
    ensures AllRequests(rows[..0], local, minute) == [] && rows[..|rows|] == rows
  {
  }

  lemma {:induction false} RequestsContinue(rows: seq<Task>, i: nat, local: (string, int) -> Cron.Moment, minute: int)
    requires i < |rows|
    ensures AllRequests(rows[..i + 1], local, minute) ==
            AllRequests(rows[..i], local, minute)
              + ScheduleRequests(rows[i], local(rows[i].options.timezone, minute), minute)
  {
    assert rows[..i + 1][..i] == rows[..i];
  }

  /** The rows still to come, and those not listed, are not touched. */
  lemma {:induction false} ApplyingLeaves(start: TaskTable, before: TaskTable, after: TaskTable, rows: seq<Task>,
                                          i: nat)
    requires i < |rows| && StillListed(start, rows, 0)
    requires forall t | t in start && start[t] !in rows[..i] :: t in before && before[t] == start[t]
    requires rows[i].id in after && after == before[rows[i].id := after[rows[i].id]]
    ensures forall t | t in start && start[t] !in rows[..i + 1] :: after[t] == start[t]
  {
    assert rows[..i + 1] == rows[..i] + [rows[i]];
    assert rows[i].id in start && start[rows[i].id] == rows[i];
  }

  lemma {:induction false} ApplyingContinues(start: TaskTable, before: TaskTable, after: TaskTable,
                                             local: (string, int) -> Cron.Moment,
                                             minute: int, killed: set<TaskId>, rows: seq<Task>, i: nat,
                                             more: set<TaskId>)
    requires i < |rows| && StillListed(start, rows, 0)
    requires AppliedSoFar(start, before, local, minute, killed, rows, i)
    requires more <= {rows[i].id}
    requires after == before[rows[i].id := Scheduled(rows[i], local(rows[i].options.timezone, minute), minute,
             rows[i].id in more)]
    ensures AppliedSoFar(start, after, local, minute, killed + more, rows, i + 1)
  {
    hide Scheduled, Treated;
    IdsOfNext(rows, i);
    NowTreated(before, after, local, minute, killed, more, rows[i]);
    ApplyingLeaves(start, before, after, rows, i);
    assert rows[i].id in start && after.Keys == start.Keys;
    hide IdsOf;
    forall k | 0 <= k < i
      ensures Treated(after, local, minute, killed + more, rows[k])
    {
      OtherStaysTreated(before, after, local, minute, killed, more, rows[k], rows[i].id);
    }
  }

  /** Rows without a schedule claim nothing, so covering the listed rows covers the table. */
  lemma {:induction false} ApplyingEnds(start: TaskTable, now: TaskTable, local: (string, int) -> Cron.Moment,
                                        minute: int,
                                        killed: set<TaskId>, rows: seq<Task>)
    requires Lists(rows, start, Matching(start, IsScheduled))
    requires AppliedSoFar(start, now, local, minute, killed, rows, |rows|)
    ensures SchedulesApplied(start, now, local, minute, killed)
  {
    assert rows[..|rows|] == rows;
    forall t | t in start
      ensures now[t] == Scheduled(start[t], local(start[t].options.timezone, minute), minute, t in killed)
    {
      if start[t] in rows {
        var k :| 0 <= k < |rows| && rows[k] == start[t];
        assert start[t].id == t && Treated(now, local, minute, killed, rows[k]);
      } else {
        assert t !in Matching(start, IsScheduled);
      }
    }
  }

  /** A tick advances a task's recorded triggers by the claim rule, whatever became of the claim. */
  lemma {:induction false} ScheduledRecordsClaim(before: Task, m: Cron.Moment, minute: int, killed: bool)
    ensures var after := Scheduled(before, m, minute, killed);
            && FiredOf(after) == AfterClaim(FiredOf(before), ClaimFor(before, m, minute), minute)
            && after.id == before.id && after.options == before.options
  {
    ClaimIsTickClaim(before, StartTrigger, minute);
    ClaimIsTickClaim(before, StopTrigger, minute);
  }
}
