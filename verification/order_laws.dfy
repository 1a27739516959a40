/** In which order tasks are listed and attempted, and what holds one back, said of their priorities and times. */
module OrderLaws {
  import opened Models
  import opened Lifecycle
  import opened Capacity
  import opened Queries
  import opened VictimLaws
  import Placement
  import opened DispatchEffects
  import opened DispatchPass
  import opened PassTrace

  /** Higher priority first, then the one created earlier, then the one inserted earlier. */
  ghost predicate MoreUrgent(a: Task, b: Task) {
    || a.options.priority > b.options.priority
    || (a.options.priority == b.options.priority
        && (a.createdAt < b.createdAt || (a.createdAt == b.createdAt && a.id < b.id)))
  }

  lemma KeyMeansUrgency(a: Task, b: Task)
    requires a.id != b.id
    ensures AtMost(QueueKey(a), QueueKey(b)) <==> MoreUrgent(a, b)
  {
  }

  /** The task attempted next is the most urgent of all that wait. */
  lemma {:induction false} NextIsMostUrgent(tasks: TaskTable, attempted: set<TaskId>, id: TaskId, other: TaskId)
    requires KeyedById(tasks) && NextInQueue(tasks, attempted, id)
    requires Waiting(tasks, attempted, other) && other != id
    ensures MoreUrgent(tasks[id], tasks[other])
  {
    KeyMeansUrgency(tasks[id], tasks[other]);
  }

  /** The queue is listed by urgency, and whoever is left out is less urgent than all that are listed. */
  lemma {:induction false} QueueByUrgency(tasks: TaskTable, r: seq<Task>, i: nat, other: TaskId)
    requires KeyedById(tasks) && QueueWindow(tasks, r) && i < |r|
    requires other in tasks && tasks[other].status == Queued && tasks[other] != r[i]
    ensures (forall k | 0 <= k < i :: r[k] != tasks[other]) ==> MoreUrgent(r[i], tasks[other])
  {
    if (forall k | 0 <= k < i :: r[k] != tasks[other]) {
      if tasks[other] in r {
        var j :| 0 <= j < |r| && r[j] == tasks[other];
        assert i < j;
      }
      KeyMeansUrgency(r[i], tasks[other]);
    }
  }

  /** Running tasks are refreshed and resized in the order in which they were started. */
  lemma {:induction false} RunningByStart(s: seq<Task>, i: nat, j: nat)
    requires SortedBy(StartedKey, s) && i < j < |s|
    ensures NoLaterStart(s[i], s[j])
  {
  }

  /** Scheduled tasks are treated in the order in which they were created. */
  lemma {:induction false} ScheduledByAge(s: seq<Task>, i: nat, j: nat)
    requires SortedBy(CreatedKey, s) && i < j < |s|
    ensures s[i].createdAt <= s[j].createdAt
  {
  }

  /** A worker's running tasks are listed from the lowest priority up, and by start among equals. */
  lemma {:induction false} OnWorkerByPriority(s: seq<Task>, i: nat, j: nat)
    requires SortedBy(PriorityKey, s) && i < j < |s|
    ensures GivenUpFirst(s[i], s[j])
  {
  }

  /** A regular task that waits, is of higher priority, and is bound to this worker or to none. */
  ghost predicate MayStartBefore(t: Task, background: Task, worker: WorkerName) {
    && t.status == Queued && !t.options.background
    && background.options.priority < t.options.priority
    && t.options.targetWorker in {None, Some(""), Some(worker)}
  }

  lemma BlocksExactly(t: Task, w: WorkerConfig, background: Task)
    ensures Blocks(t, w, background) <==> MayStartBefore(t, background, w.name)
  {
  }

  /**
   * A background task with a plan is held back if and only if some queued regular task has a strictly higher
   * priority and names no other worker.
   */
  lemma {:induction false} HeldExactly(o: Offer, workers: seq<WorkerConfig>, states: Placement.WorkerStates,
                                       after: TaskTable, at: nat)
    requires OfferMade(o, workers, states, after, at)
    ensures o.held <==>
            o.plan.Some? &&
            exists t :: t in o.before.tasks &&
              MayStartBefore(o.before.tasks[t], o.before.tasks[o.id], o.plan.value.worker.name)
  {
    hide BestPlan, Blocks, MayStartBefore, StartedRow;
    if o.plan.Some? {
      forall t | t in o.before.tasks
        ensures Blocks(o.before.tasks[t], o.plan.value.worker, o.before.tasks[o.id]) <==>
                MayStartBefore(o.before.tasks[t], o.before.tasks[o.id], o.plan.value.worker.name)
      {
        BlocksExactly(o.before.tasks[t], o.plan.value.worker, o.before.tasks[o.id]);
      }
    }
  }
}
