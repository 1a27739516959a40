/** What the running tasks hold on each worker, and the limits a worker's configuration sets. */
module Capacity {
  import opened Models
  import opened Lifecycle

  ghost predicate RunsOn(t: Task, w: WorkerName) {
    t.status == Running && t.worker == Some(w)
  }

  ghost function OnWorker(tasks: TaskTable, w: WorkerName): set<TaskId> {
    set t | t in tasks && RunsOn(tasks[t], w)
  }

  ghost function BackgroundOn(tasks: TaskTable, w: WorkerName): set<TaskId> {
    set t | t in tasks && RunsOn(tasks[t], w) && tasks[t].options.background
  }

  /** One element for each GPU slot in use: every assigned GPU of every running task counts. */
  ghost function Held(tasks: TaskTable, w: WorkerName): set<(TaskId, nat)> {
    set t, k: nat | t in OnWorker(tasks, w) && k < |tasks[t].gpus| :: (t, k)
  }

  ghost function BusyGpus(tasks: TaskTable, w: WorkerName): set<int> {
    set t, g | t in OnWorker(tasks, w) && g in tasks[t].gpus :: g
  }

  ghost predicate FitsRequest(o: TaskOptions, gpus: seq<int>) {
    && Distinct(gpus)
    && (if o.elastic then 1 <= |gpus| <= o.requestedGpus else |gpus| == o.requestedGpus)
  }

  /** Starting `o` on these GPUs of `w` keeps every limit of the worker. */
  ghost predicate Fits(w: WorkerConfig, tasks: TaskTable, o: TaskOptions, gpus: seq<int>) {
    && FitsRequest(o, gpus)
    && (forall g | g in gpus :: g !in BusyGpus(tasks, w.name))
    && (w.maxConcurrentTasks.Some? ==> |Held(tasks, w.name)| + |gpus| <= w.maxConcurrentTasks.value)
    && (o.background ==> |BackgroundOn(tasks, w.name)| < w.maxBackgroundTasks)
  }

  ghost predicate DisjointGpus(tasks: TaskTable, w: WorkerName) {
    forall t, u, g | t in OnWorker(tasks, w) && u in OnWorker(tasks, w) && g in tasks[t].gpus && g in tasks[u].gpus ::
      t == u
  }

  ghost predicate WithinLimits(w: WorkerConfig, tasks: TaskTable) {
    && DisjointGpus(tasks, w.name)
    && (w.maxConcurrentTasks.Some? ==> |Held(tasks, w.name)| <= w.maxConcurrentTasks.value)
    && |BackgroundOn(tasks, w.name)| <= w.maxBackgroundTasks
  }

  ghost predicate CapacityInvariant(workers: seq<WorkerConfig>, tasks: TaskTable) {
    && (forall i | 0 <= i < |workers| :: WithinLimits(workers[i], tasks))
    && (forall t | t in tasks && tasks[t].status == Running :: FitsRequest(tasks[t].options, tasks[t].gpus))
  }

  lemma {:induction false} SubsetSize<T>(a: set<T>, b: set<T>)
    requires a <= b
    ensures |a| <= |b|
  {
    if a != b {
      assert b == a + (b - a);
      assert |b| == |a| + |b - a|;
    }
  }

  ghost function Slots(t: TaskId, n: nat): set<(TaskId, nat)> {
    set k: nat | k < n :: (t, k)
  }

  lemma {:induction false} SlotsSize(t: TaskId, n: nat)
    ensures |Slots(t, n)| == n
  {
    if n > 0 {
      SlotsSize(t, n - 1);
      assert Slots(t, n) == Slots(t, n - 1) + {(t, n - 1)};
    }
  }

  /** A row that stops running, or keeps not running, can only free capacity. */
  lemma {:induction false} ReleasingKeepsLimits(w: WorkerConfig, tasks: TaskTable, row: Task)
    requires WithinLimits(w, tasks)
    requires row.status != Running
    ensures WithinLimits(w, tasks[row.id := row])
  {
    var after := tasks[row.id := row];
    SubsetSize(Held(after, w.name), Held(tasks, w.name));
    SubsetSize(BackgroundOn(after, w.name), BackgroundOn(tasks, w.name));
  }

  /** A running row whose placement is untouched holds what it held. */
  lemma {:induction false} SamePlacementKeepsLimits(w: WorkerConfig, tasks: TaskTable, row: Task)
    requires WithinLimits(w, tasks)
    requires row.id in tasks && row.status == Running == tasks[row.id].status
    requires row.worker == tasks[row.id].worker && row.gpus == tasks[row.id].gpus
    requires row.options.background == tasks[row.id].options.background
    ensures WithinLimits(w, tasks[row.id := row])
  {
    var after := tasks[row.id := row];
    assert OnWorker(after, w.name) == OnWorker(tasks, w.name);
    assert Held(after, w.name) == Held(tasks, w.name);
    assert BackgroundOn(after, w.name) == BackgroundOn(tasks, w.name);
  }

  lemma {:induction false} StartingKeepsDisjoint(w: WorkerName, tasks: TaskTable, row: Task)
    requires DisjointGpus(tasks, w)
    requires forall g | g in row.gpus :: g !in BusyGpus(tasks, w)
    requires row.id in tasks && tasks[row.id].status != Running && RunsOn(row, w)
    ensures DisjointGpus(tasks[row.id := row], w)
  {
    var after := tasks[row.id := row];
    forall t, u, g | t in OnWorker(after, w) && u in OnWorker(after, w) && g in after[t].gpus && g in after[u].gpus
      ensures t == u
    {
      assert t != row.id ==> t in OnWorker(tasks, w) && g in BusyGpus(tasks, w);
      assert u != row.id ==> u in OnWorker(tasks, w) && g in BusyGpus(tasks, w);
    }
  }

  lemma {:induction false} StartingAddsSlots(w: WorkerName, tasks: TaskTable, row: Task)
    requires row.id in tasks && tasks[row.id].status != Running && RunsOn(row, w)
    ensures |Held(tasks[row.id := row], w)| == |Held(tasks, w)| + |row.gpus|
  {
    var after := tasks[row.id := row];
    SlotsSize(row.id, |row.gpus|);
    assert Held(after, w) == Held(tasks, w) + Slots(row.id, |row.gpus|) by {
      forall p
        ensures p in Held(after, w) <==> p in Held(tasks, w) || p in Slots(row.id, |row.gpus|)
      {
        assert p.0 != row.id ==> (p.0 in OnWorker(after, w) <==> p.0 in OnWorker(tasks, w));
      }
    }
    assert Held(tasks, w) !! Slots(row.id, |row.gpus|);
  }

  lemma {:induction false} StartingAddsBackground(w: WorkerName, tasks: TaskTable, row: Task)
    requires row.id in tasks && tasks[row.id].status != Running && RunsOn(row, w)
    ensures |BackgroundOn(tasks[row.id := row], w)| ==
            |BackgroundOn(tasks, w)| + (if row.options.background then 1 else 0)
  {
    assert BackgroundOn(tasks[row.id := row], w) == BackgroundOn(tasks, w)
      + (if row.options.background then {row.id} else {});
  }

  lemma {:induction false} ElsewhereUnchanged(w: WorkerName, tasks: TaskTable, row: Task)
    requires !RunsOn(row, w)
    requires row.id in tasks ==> !RunsOn(tasks[row.id], w)
    ensures OnWorker(tasks[row.id := row], w) == OnWorker(tasks, w)
    ensures Held(tasks[row.id := row], w) == Held(tasks, w)
    ensures BusyGpus(tasks[row.id := row], w) == BusyGpus(tasks, w)
    ensures BackgroundOn(tasks[row.id := row], w) == BackgroundOn(tasks, w)
  {
  }

  /** Starting a task that fits keeps every worker's limits. */
  lemma {:induction false} StartingKeepsLimits(w: WorkerConfig, chosen: WorkerConfig, tasks: TaskTable, row: Task)
    requires WithinLimits(w, tasks)
    requires w == chosen || w.name != chosen.name
    requires row.id in tasks && tasks[row.id].status != Running
    requires row.status == Running && row.worker == Some(chosen.name)
    requires Fits(chosen, tasks, row.options, row.gpus)
    ensures WithinLimits(w, tasks[row.id := row])
  {
    if w == chosen {
      StartingKeepsDisjoint(w.name, tasks, row);
      StartingAddsSlots(w.name, tasks, row);
      StartingAddsBackground(w.name, tasks, row);
    } else {
      ElsewhereUnchanged(w.name, tasks, row);
    }
  }
}
