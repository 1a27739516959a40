/** The frozen records of gpu_watcher/models.py, reduced to the fields the scheduler reads. */
module Models {

  datatype Option<+T> = None | Some(value: T)

  datatype Result<+T> = Ok(value: T) | Err(error: string)

  /** A task row's identity. Rows are numbered in the order they are inserted. */
  type TaskId = nat

  type WorkerName = string

  datatype Status = Paused | Queued | Running | Succeeded | Failed | Canceled {
    predicate Terminal() {
      Succeeded? || Failed? || Canceled?
    }
  }

  /** Names the tmux session and the task directory that one task has on one worker. */
  datatype Site = Site(worker: WorkerName, task: TaskId)

  /** What a user may choose; only `update_task` replaces these after creation. */
  datatype TaskOptions = TaskOptions(
    priority: int,
    requestedGpus: int,
    targetWorker: Option<WorkerName>,
    maxMemoryUsedMb: Option<int>,
    minFreeMemoryMb: Option<int>,
    maxUtilizationPercent: Option<int>,
    minFreeSeconds: int,
    preemptible: bool,
    allowPreempt: bool,
    background: bool,
    elastic: bool,
    startCron: Option<string>,
    stopCron: Option<string>,
    timezone: string)

  datatype Task = Task(
    id: TaskId,
    options: TaskOptions,
    status: Status,
    createdAt: nat,
    startedAt: Option<nat>,
    finishedAt: Option<nat>,
    worker: Option<WorkerName>,
    gpus: seq<int>,
    session: Option<Site>,
    exitCode: Option<int>,
    lastStart: Option<int>,
    lastStop: Option<int>)

  datatype WorkerConfig = WorkerConfig(
    name: WorkerName,
    enabled: bool,
    gpus: seq<int>,
    maxConcurrentTasks: Option<int>,
    maxBackgroundTasks: int)

  /** What gpu_watcher/config.py has checked before a scheduler is built. */
  ghost predicate ValidWorkers(workers: seq<WorkerConfig>) {
    && (forall i, j | 0 <= i < j < |workers| :: workers[i].name != workers[j].name)
    && (forall i | 0 <= i < |workers| :: ValidWorker(workers[i]))
  }

  ghost predicate ValidWorker(w: WorkerConfig) {
    && w.name != ""
    && Distinct(w.gpus)
    && (w.maxConcurrentTasks.Some? ==> w.maxConcurrentTasks.value >= 1)
    && w.maxBackgroundTasks >= 0
  }

  /** The lookup in the scheduler's `workers` dictionary. */
  function WorkerNamed(workers: seq<WorkerConfig>, name: WorkerName): (r: Option<WorkerConfig>)
    ensures r.Some? ==> r.value in workers && r.value.name == name
    ensures r.None? ==> forall w | w in workers :: w.name != name
  {
    if workers == [] then None
    else if workers[0].name == name then Some(workers[0])
    else WorkerNamed(workers[1..], name)
  }

  ghost predicate Distinct<T>(s: seq<T>) {
    forall i, j | 0 <= i < j < |s| :: s[i] != s[j]
  }

  function Elements<T(==)>(s: seq<T>): set<T> {
    set x | x in s
  }

  lemma {:induction false} ElementsAppend<T>(s: seq<T>, x: T)
    ensures Elements<T>([]) == {}
    ensures Elements(s + [x]) == Elements(s) + {x}
  {
  }

  datatype DaemonConfig = DaemonConfig(freeMemoryMb: int, freeUtilizationPercent: int)

  /** The thresholds double as the condition's key: the rendered key string determines them. */
  datatype GpuCondition = GpuCondition(
    maxMemoryUsedMb: int,
    maxUtilizationPercent: int,
    minFreeMemoryMb: Option<int>)

  datatype GpuState = GpuState(
    index: int,
    memoryUsedMb: int,
    utilizationPercent: int,
    memoryTotalMb: int,
    numaNode: Option<int>)
  {
    function MemoryFreeMb(): Option<int> {
      if memoryTotalMb <= 0 then None
      else Some(if memoryTotalMb >= memoryUsedMb then memoryTotalMb - memoryUsedMb else 0)
    }

    predicate IsFree(c: GpuCondition) {
      && memoryUsedMb <= c.maxMemoryUsedMb
      && utilizationPercent <= c.maxUtilizationPercent
      && (c.minFreeMemoryMb.Some? ==>
            MemoryFreeMb().Some? && MemoryFreeMb().value >= c.minFreeMemoryMb.value)
    }
  }

  ghost predicate DistinctIndexes(gpus: seq<GpuState>) {
    forall i, j | 0 <= i < j < |gpus| :: gpus[i].index != gpus[j].index
  }
}
