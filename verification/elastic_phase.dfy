/** The elastic phase of a pass: resizing every running elastic task once, on live tables. */
module ElasticPhases {
  import opened Models
  import opened Lifecycle
  import opened Capacity
  import opened Queries
  import opened Occupancy
  import opened GpuConditions
  import opened GpuSelection
  import opened Placement
  import opened Victims
  import opened Elastic
  import opened Protocol
  import opened PassOrder
  import opened DispatchEffects
  import opened DispatchPass

  predicate IsElastic(t: Task) {
    t.status == Running && t.options.background && t.options.elastic
  }

  /** The running elastic tasks whose conditions the pass probes. */
  function ElasticOnly(running: seq<Task>): seq<Task> {
    if running == [] then [] else (if IsElastic(running[0]) then [running[0]] else []) + ElasticOnly(running[1..])
  }

  // ----- what a resize step looks at -----

  function Others(s: seq<Task>, id: TaskId): seq<Task> {
    if s == [] then [] else (if s[0].id == id then [] else [s[0]]) + Others(s[1..], id)
  }

  lemma {:induction false} OthersMembers(s: seq<Task>, id: TaskId)
    ensures forall t :: t in Others(s, id) <==> t in s && t.id != id
    ensures DistinctIds(s) ==> DistinctIds(Others(s, id))
  {
    if s != [] {
      OthersMembers(s[1..], id);
      assert s == [s[0]] + s[1..];
      forall t | t in Others(s[1..], id) && DistinctIds(s)
        ensures t.id != s[0].id
      {
        var i :| 0 <= i < |s[1..]| && s[1..][i] == t;
        assert s[i + 1] == t;
      }
    }
  }

  /** The slots other tasks hold: the sum in `_elastic_gpu_limit`. */
  method OtherSlots(tasks: TaskTable, w: WorkerName, id: TaskId) returns (n: nat)
    requires KeyedById(tasks)
    ensures n == |Held(tasks - {id}, w)|
  {
    var rows := RunningTasksForWorker(tasks, w);
    var others := Others(rows, id);
    OthersMembers(rows, id);
    n := SlotSum(others);
    assert Lists(others, tasks - {id}, OnWorker(tasks - {id}, w)) by {
      forall i | 0 <= i < |others|
        ensures others[i] in rows && others[i].id != id
      {
      }
    }
    SlotSumIsHeld(others, tasks - {id}, w);
  }

  ghost function SituationOf(v: View, w: WorkerConfig, states: WorkerStates, t: Task): Situation {
    var reported := StatesOf(states, w.name);
    Situation(t.options, w, t.gpus, reported,
              Available(Excluding(v, Some(t.id)), w.name, reported, t.options),
              |Held(v.tasks - {t.id}, w.name)|)
  }

  lemma {:induction false} SituationIsValid(v: View, w: WorkerConfig, states: WorkerStates, t: Task)
    requires ValidStates(states) && StatesOf(states, w.name) != []
    requires RowInvariant(t) && IsElastic(t) && FitsRequest(t.options, t.gpus)
    ensures SituationOf(v, w, states, t).Valid()
  {
    AvailableMembers(Excluding(v, Some(t.id)), w.name, StatesOf(states, w.name), t.options);
  }

  lemma {:induction false} RunningFits(workers: seq<WorkerConfig>, tasks: TaskTable, t: Task)
    requires CapacityInvariant(workers, tasks)
    requires t.id in tasks && tasks[t.id] == t && t.status == Running
    ensures FitsRequest(t.options, t.gpus)
  {
  }

  /** The worker is configured and enabled, and the pass has a non-empty report of it. */
  ghost predicate Resizable(workers: seq<WorkerConfig>, states: WorkerStates, t: Task) {
    t.worker.Some? &&
    var w := WorkerNamed(workers, t.worker.value);
    w.Some? && w.value.enabled && StatesOf(states, w.value.name) != []
  }

  // ----- a restart -----

  lemma {:induction false} ReleasedHoldings(tasks: TaskTable, id: TaskId, w: WorkerName)
    requires id in tasks
    ensures Held(Released(tasks, {id}), w) == Held(tasks - {id}, w)
    ensures BusyGpus(Released(tasks, {id}), w) == BusyGpus(tasks - {id}, w)
    ensures Released(tasks, {id}) - {id} == tasks - {id}
  {
    var after, rest := Released(tasks, {id}), tasks - {id};
    assert OnWorker(after, w) == OnWorker(rest, w);
    forall t | t in OnWorker(rest, w)
      ensures after[t] == rest[t]
    {
    }
  }

  lemma {:induction false} ReleasedBackground(tasks: TaskTable, t: Task, w: WorkerName)
    requires t.id in tasks && tasks[t.id] == t && RunsOn(t, w) && t.options.background
    ensures |BackgroundOn(Released(tasks, {t.id}), w)| == |BackgroundOn(tasks, w)| - 1
  {
    assert BackgroundOn(Released(tasks, {t.id}), w) == BackgroundOn(tasks, w) - {t.id};
  }

  lemma {:induction false} OwnGpusAreFree(tasks: TaskTable, t: Task, w: WorkerName, g: int)
    requires t.id in tasks && tasks[t.id] == t && RunsOn(t, w) && g in t.gpus
    requires DisjointGpus(tasks, w)
    ensures g !in BusyGpus(tasks - {t.id}, w)
  {
    assert t.id in OnWorker(tasks, w);
    forall u | u in OnWorker(tasks - {t.id}, w)
      ensures g !in tasks[u].gpus
    {
      assert u in OnWorker(tasks, w);
    }
  }

  lemma {:induction false} RestartAvoidsBusy(v: View, w: WorkerConfig, states: WorkerStates, t: Task, d: Resize)
    requires t.id in v.tasks && v.tasks[t.id] == t && RunsOn(t, w.name)
    requires ValidStates(states) && DisjointGpus(v.tasks, w.name)
    requires SituationOf(v, w, states, t).Valid() && Decision(SituationOf(v, w, states, t), d) && d.Restart?
    ensures forall g | g in d.gpus :: g !in BusyGpus(v.tasks - {t.id}, w.name)
  {
    var s := SituationOf(v, w, states, t);
    RestartGpus(s, d);
    AvailableMembers(Excluding(v, Some(t.id)), w.name, s.reported, t.options);
    AdditionalMembers(s.available, s.current);
    forall g | g in d.gpus
      ensures g !in BusyGpus(v.tasks - {t.id}, w.name)
    {
      if g in s.current {
        OwnGpusAreFree(v.tasks, t, w.name, g);
      } else {
        var gpu :| gpu in s.available && gpu.index == g;
      }
    }
  }

  /** Once the task is back in the queue, its new set of GPUs fits on the worker. */
  lemma {:induction false} RestartFits(v: View, w: WorkerConfig, states: WorkerStates, t: Task, d: Resize)
    requires t.id in v.tasks && v.tasks[t.id] == t && RunsOn(t, w.name) && IsElastic(t)
    requires ValidStates(states) && WithinLimits(w, v.tasks)
    requires SituationOf(v, w, states, t).Valid() && Decision(SituationOf(v, w, states, t), d) && d.Restart?
    ensures Fits(w, Released(v.tasks, {t.id}), t.options, d.gpus)
  {
    var s := SituationOf(v, w, states, t);
    RestartGpus(s, d);
    RestartWithinLimits(s, d);
    RestartAvoidsBusy(v, w, states, t, d);
    ReleasedHoldings(v.tasks, t.id, w.name);
    ReleasedBackground(v.tasks, t, w.name);
  }

  /** With the same probe, conditions and other tasks, the restarted row poses the resized situation. */
  lemma {:induction false} RestartedSituation(v: View, after: View, w: WorkerConfig, states: WorkerStates, t: Task,
                                              row: Task, d: Resize)
    requires d.Restart? && row.id == t.id && row.options == t.options && row.gpus == d.gpus
    requires after == v.(tasks := after.tasks) && after.tasks - {t.id} == v.tasks - {t.id}
    ensures SituationOf(after, w, states, row) == Resized(SituationOf(v, w, states, t), d)
  {
  }

  /**
   * If the probe showed every GPU the task held, its restart changed the number of GPUs, and resizing it
   * again with the same probe and the same other tasks changes nothing.
   */
  lemma {:induction false} RestartSettles(v: View, after: View, w: WorkerConfig, states: WorkerStates, t: Task,
                                          row: Task, d: Resize, again: Resize, at: nat)
    requires SituationOf(v, w, states, t).Valid() && SituationOf(v, w, states, t).FullyReported()
    requires Decision(SituationOf(v, w, states, t), d) && d.Restart?
    requires row == StartedRow(Requeued(t), DispatchPlan(w, d.gpus), at)
    requires after == v.(tasks := after.tasks) && after.tasks - {t.id} == v.tasks - {t.id}
    requires Decision(SituationOf(after, w, states, row), again)
    ensures |row.gpus| != |t.gpus|
    ensures again == Keep
  {
    RestartChangesCount(SituationOf(v, w, states, t), d);
    RestartedSituation(v, after, w, states, t, row, d);
    ResizeIsOneStep(SituationOf(v, w, states, t), d, again);
  }

  // ----- the phase -----

  /** Each elastic task is killed at most once, before its own restart, and nothing else is touched. */
  ghost predicate ElasticPhase(start: TaskTable, now: TaskTable, done: set<TaskId>, steps: seq<Action>) {
    && SameTasks(start, now)
    && (forall t | t in start && t !in done :: now[t] == start[t])
    && Killed(steps) <= done && Started(steps) <= Killed(steps)
    && (forall t | t in done :: t in start && IsElastic(start[t]))
    && StatusesExplained(start, now, steps)
    && Ordered(steps)
  }

  /** The three outcomes of resizing one task. */
  ghost predicate ResizeEffect(before: TaskTable, after: TaskTable, t: Task, steps: seq<Action>) {
    && Ordered(steps) && Killed(steps) <= {t.id} && Started(steps) <= Killed(steps)
    && after.Keys == before.Keys && t.id in after
    && (forall u | u in before && u != t.id :: after[u] == before[u])
    && SameTask(t, after[t.id])
    && (Killed(steps) == {} ==> after == before)
    && after[t.id].status == (if Killed(steps) == {} || Started(steps) != {} then Running else Queued)
  }

  lemma {:induction false} UntouchedEffect(tasks: TaskTable, t: Task)
    requires t.id in tasks && tasks[t.id] == t && t.status == Running
    ensures ResizeEffect(tasks, tasks, t, [])
  {
  }

  lemma {:induction false} PreemptedEffect(before: TaskTable, after: TaskTable, t: Task, steps: seq<Action>)
    requires t.id in before && before[t.id] == t && t.status == Running
    requires OnlyPreempts(before, after, steps) && Killed(steps) <= {t.id}
    ensures ResizeEffect(before, after, t, steps) && Started(steps) == {}
    ensures Killed(steps) == {} ==> after == before
    ensures Killed(steps) == {t.id} ==> after == Released(before, {t.id}) && after[t.id] == Requeued(t)
  {
    hide Killed, Started, Ordered;
    NothingPreempted(before, after, steps);
  }

  lemma {:induction false} RestartedEffect(before: TaskTable, between: TaskTable, after: TaskTable, t: Task,
                                           steps: seq<Action>, more: seq<Action>)
    requires ResizeEffect(before, between, t, steps)
    requires Killed(steps) == {t.id} && Started(steps) == {}
    requires Killed(more) == {} && Ordered(more)
    requires if Started(more) == {} then after == between
             else Started(more) == {t.id} && t.id in after && after == between[t.id := after[t.id]]
                  && SameTask(t, after[t.id]) && after[t.id].status == Running
    ensures ResizeEffect(before, after, t, steps + more)
    ensures Killed(steps + more) == {t.id} && Started(steps + more) == Started(more)
  {
    hide Killed, Started, Ordered;
    Concatenated(steps, more);
  }

  lemma {:induction false} ResizeKeepsStatuses(start: TaskTable, before: TaskTable, after: TaskTable, t: Task,
                                               done: set<TaskId>,
                                               steps: seq<Action>, more: seq<Action>)
    requires ElasticPhase(start, before, done, steps)
    requires t.id in start && t.id !in done && start[t.id] == t && IsElastic(t)
    requires ResizeEffect(before, after, t, more)
    ensures StatusesExplained(start, after, steps + more)
  {
    hide Killed, Started, Ordered, SameTasks;
    Concatenated(steps, more);
  }

  lemma {:induction false} ResizeKeepsPhase(start: TaskTable, before: TaskTable, after: TaskTable, t: Task,
                                            done: set<TaskId>,
                                            steps: seq<Action>, more: seq<Action>)
    requires ElasticPhase(start, before, done, steps)
    requires t.id in start && t.id !in done && start[t.id] == t && IsElastic(t)
    requires ResizeEffect(before, after, t, more)
    ensures ElasticPhase(start, after, done + {t.id}, steps + more)
  {
    ResizeKeepsStatuses(start, before, after, t, done, steps, more);
    ResizeKeepsTasks(start, before, after, t, more);
    assert before.Keys == start.Keys;
    hide Killed, Started, Ordered, StatusesExplained, SameTasks, SameTask;
    Concatenated(steps, more);
    assert Ordered(steps + more);
    assert Started(steps + more) <= Killed(steps + more);
    assert Killed(steps + more) <= done + {t.id};
    assert forall u | u in start && u !in done + {t.id} :: after[u] == start[u];
    assert forall u | u in done + {t.id} :: u in start && IsElastic(start[u]);
  }

  lemma {:induction false} ResizeKeepsTasks(start: TaskTable, before: TaskTable, after: TaskTable, t: Task,
                                            more: seq<Action>)
    requires SameTasks(start, before)
    requires t.id in start && start[t.id] == t
    requires ResizeEffect(before, after, t, more)
    ensures SameTasks(start, after)
  {
    hide Killed, Started, Ordered;
    forall u | u in start
      ensures SameTask(start[u], after[u])
    {
      assert SameTask(start[u], before[u]);
    }
  }

  lemma {:induction false} NothingListed(running: seq<Task>)
    ensures IdsOf(running[..0]) == {}
  {
  }

  /** The rows that are yet to be resized are as they were listed. */
  lemma {:induction false} NextIsUntouched(start: TaskTable, now: TaskTable, running: seq<Task>, i: nat,
                                           done: set<TaskId>, steps: seq<Action>)
    requires ElasticPhase(start, now, done, steps)
    requires Lists(running, start, WithStatus(start, Running)) && i < |running|
    requires done <= IdsOf(running[..i])
    ensures running[i].id in start && running[i].id in now && running[i].id !in done
    ensures start[running[i].id] == running[i] && now[running[i].id] == running[i] && running[i].status == Running
    ensures IdsOf(running[..i + 1]) == IdsOf(running[..i]) + {running[i].id}
    ensures KeyedById(start) ==> KeyedById(now)
  {
    hide Killed, Started, Ordered, StatusesExplained;
    IdsOfNext(running, i);
    forall t | t in start
      ensures SameTask(start[t], now[t])
    {
    }
  }

  lemma {:induction false} ElasticPhaseStarts(start: TaskTable)
    ensures ElasticPhase(start, start, {}, [])
  {
  }

  // ----- the whole pass -----

  /**
   * What a dispatch pass leaves behind: regular attempts in non-increasing priority, starts only of
   * attempted or background tasks, kills only of tasks that were running when the pass began, and no kill
   * of a task killed or started earlier in the pass.
   */
  ghost predicate WholePass(start: TaskTable, now: TaskTable, attempts: seq<TaskId>, steps: seq<Action>) {
    && SameTasks(start, now)
    && Descending(start, attempts)
    && (forall t | t in Started(steps) :: t in start && (start[t].options.background || t in attempts))
    && StatusesExplained(start, now, steps)
    && Ordered(steps)
  }

  lemma {:induction false} SameTasksChain(a: TaskTable, b: TaskTable, c: TaskTable)
    requires SameTasks(a, b) && SameTasks(b, c)
    ensures SameTasks(a, c)
  {
    forall t | t in a
      ensures SameTask(a[t], c[t])
    {
      assert SameTask(a[t], b[t]) && SameTask(b[t], c[t]);
    }
  }

  /** The elastic phase kills nothing that the regular phase killed or started. */
  lemma {:induction false} ElasticVictimsAreNew(start: TaskTable, mid: TaskTable, now: TaskTable, attempts: seq<TaskId>,
                                                done: set<TaskId>,
                                                steps: seq<Action>, more: seq<Action>)
    requires RegularPhase(start, mid, attempts, steps)
    requires ElasticPhase(mid, now, done, more)
    ensures Killed(more) !! Killed(steps) && Killed(more) !! Started(steps)
  {
    hide Killed, Started, Ordered;
    forall k | k in done
      ensures k !in Started(steps) && k !in Killed(steps)
    {
      assert SameTask(start[k], mid[k]);
      assert k in Started(steps) ==> k in attempts;
    }
  }

  lemma {:induction false} ElasticKeepsStatuses(start: TaskTable, mid: TaskTable, now: TaskTable, done: set<TaskId>,
                                                steps: seq<Action>, more: seq<Action>)
    requires StatusesExplained(start, mid, steps) && StatusesExplained(mid, now, more)
    requires Killed(more) <= done && Killed(more) !! Started(steps)
    requires forall t | t in mid && t !in done :: now[t] == mid[t]
    requires forall t | t in done :: t in mid && mid[t].status == Running
    ensures StatusesExplained(start, now, steps + more)
  {
    hide Killed, Started, Ordered;
    Concatenated(steps, more);
  }

  lemma {:induction false} PhasesJoin(start: TaskTable, mid: TaskTable, now: TaskTable, attempts: seq<TaskId>,
                                      done: set<TaskId>,
                                      steps: seq<Action>, more: seq<Action>)
    requires RegularPhase(start, mid, attempts, steps)
    requires ElasticPhase(mid, now, done, more)
    ensures WholePass(start, now, attempts, steps + more)
  {
    ElasticVictimsAreNew(start, mid, now, attempts, done, steps, more);
    ElasticKeepsStatuses(start, mid, now, done, steps, more);
    SameTasksChain(start, mid, now);
    forall t | t in Started(steps) + Started(more)
      ensures t in start && (start[t].options.background || t in attempts)
    {
      if t in Started(steps) {
        assert t in Elements(attempts);
      } else {
        assert t in done;
        assert SameTask(start[t], mid[t]);
      }
    }
    hide Killed, Started, Ordered, StatusesExplained, SameTasks, Descending;
    Concatenated(steps, more);
  }

  lemma {:induction false} PassKeepsIds(start: TaskTable, now: TaskTable, attempts: seq<TaskId>, steps: seq<Action>)
    requires WholePass(start, now, attempts, steps)
    ensures KeyedById(start) ==> KeyedById(now)
  {
    hide Killed, Started, Ordered;
    forall t | t in start
      ensures SameTask(start[t], now[t])
    {
    }
  }

  lemma {:induction false} BackgroundKeepsStatuses(start: TaskTable, before: TaskTable, after: TaskTable, id: TaskId,
                                                   steps: seq<Action>, more: seq<Action>)
    requires StatusesExplained(start, before, steps)
    requires id in before && before[id].status == Queued
    requires Killed(more) == {}
    requires if Started(more) == {} then after == before
             else Started(more) == {id} && id in after && after == before[id := after[id]]
                  && after[id].status == Running
    ensures StatusesExplained(start, after, steps + more)
  {
    hide Killed, Started, Ordered;
    Concatenated(steps, more);
  }

  /** Starting a queued background task extends the pass. */
  lemma {:induction false} BackgroundKeepsPass(start: TaskTable, before: TaskTable, after: TaskTable,
                                               attempts: seq<TaskId>, id: TaskId,
                                               steps: seq<Action>, more: seq<Action>)
    requires WholePass(start, before, attempts, steps)
    requires id in before && before[id].status == Queued && before[id].options.background
    requires Killed(more) == {} && Ordered(more)
    requires if Started(more) == {} then after == before
             else Started(more) == {id} && id in after && after == before[id := after[id]]
                  && SameTask(before[id], after[id]) && after[id].status == Running
    ensures WholePass(start, after, attempts, steps + more)
  {
    hide Killed, Started, Ordered, Descending;
    Concatenated(steps, more);
    BackgroundKeepsStatuses(start, before, after, id, steps, more);
    hide StatusesExplained;
    assert SameTask(start[id], before[id]);
    assert SameTasks(before, after);
    SameTasksChain(start, before, after);
  }
}
