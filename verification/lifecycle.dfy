/** The row updates of gpu_watcher/store.py: what each guarded UPDATE writes, and when options are accepted. */
module Lifecycle {
  import opened Models
  import Cron

  type TaskTable = map<TaskId, Task>

  // ----- options -----

  function NormalizeCron(value: Option<string>): Result<Option<string>> {
    match value
    case None => Ok(None)
    case Some(text) =>
      match Cron.Validate(text)
      case Err(e) => Err(e)
      case Ok(normalized) => Ok(if normalized == "" then None else Some(normalized))
  }

  predicate ValidThresholds(o: TaskOptions) {
    && o.requestedGpus >= 1
    && (o.maxMemoryUsedMb.Some? ==> o.maxMemoryUsedMb.value >= 0)
    && (o.minFreeMemoryMb.Some? ==> o.minFreeMemoryMb.value >= 0)
    && (o.maxUtilizationPercent.Some? ==> 0 <= o.maxUtilizationPercent.value <= 100)
    && o.minFreeSeconds >= 0
  }

  /** `_validate_task_options`, the cron normalization and `preemptible or background`. */
  function Normalize(o: TaskOptions): Result<TaskOptions> {
    if !ValidThresholds(o) then Err("invalid option")
    else
      match (NormalizeCron(o.startCron), NormalizeCron(o.stopCron))
      case (Ok(start), Ok(stop)) =>
        Ok(o.(startCron := start, stopCron := stop, preemptible := o.preemptible || o.background))
      case _ => Err("invalid schedule")
  }

  /** A stored schedule parses, so reading it back cannot fail. */
  ghost predicate ParsedSchedule(cron: Option<string>) {
    cron.Some? ==> Cron.Parse(cron.value).Ok?
  }

  /** What every stored row's options satisfy. */
  ghost predicate ValidOptions(o: TaskOptions) {
    && ValidThresholds(o)
    && (o.background ==> o.preemptible)
    && ParsedSchedule(o.startCron) && ParsedSchedule(o.stopCron)
  }

  lemma {:induction false} NormalizedScheduleParses(value: Option<string>)
    requires NormalizeCron(value).Ok?
    ensures ParsedSchedule(NormalizeCron(value).value)
    ensures NormalizeCron(NormalizeCron(value).value) == NormalizeCron(value)
  {
    if value.Some? {
      Cron.NormalizationIsIdempotent(value.value);
    }
  }

  /** Accepted options are stored in a form that is accepted again, unchanged. */
  lemma {:induction false} NormalizedOptionsAreStable(o: TaskOptions)
    requires Normalize(o).Ok?
    ensures ValidOptions(Normalize(o).value)
    ensures Normalize(Normalize(o).value) == Normalize(o)
  {
    NormalizedScheduleParses(o.startCron);
    NormalizedScheduleParses(o.stopCron);
  }

  // ----- rows -----

  function NewRow(id: TaskId, o: TaskOptions, paused: bool, now: nat): Task {
    Task(id, o, if paused then Paused else Queued, now, None, None, None, [], None, None, None, None)
  }

  /** `update_task` matches a paused row, or a queued one that holds nothing of a run. */
  predicate Editable(t: Task) {
    t.status == Paused || (t.status == Queued && t.startedAt == None && t.worker == None && t.session == None)
  }

  function Edited(t: Task, o: TaskOptions): Task {
    t.(options := o, lastStart := None, lastStop := None)
  }

  function MarkedRunning(t: Task, worker: WorkerName, gpus: seq<int>, session: Site, now: nat): Task {
    t.(status := Running, startedAt := Some(now), worker := Some(worker), gpus := gpus, session := Some(session))
  }

  function Finished(t: Task, exitCode: int, now: nat): Task {
    t.(status := if exitCode == 0 then Succeeded else Failed, finishedAt := Some(now), exitCode := Some(exitCode))
  }

  function FailedWithoutCode(t: Task, now: nat): Task {
    t.(status := Failed, finishedAt := Some(now), exitCode := None)
  }

  /** `requeue_task` and `preempt_task` write the same columns. */
  function Requeued(t: Task): Task {
    t.(status := Queued, worker := None, gpus := [], session := None, startedAt := None)
  }

  function Unpaused(t: Task): Task {
    t.(status := Queued, finishedAt := None, exitCode := None)
  }

  function PausedRow(t: Task): Task {
    t.(status := Paused, worker := None, gpus := [], session := None, startedAt := None,
       finishedAt := None, exitCode := None)
  }

  function Rerun(t: Task): Task {
    PausedRow(t).(status := Queued)
  }

  /** A pause applies to queued and running tasks; one by hand also needs the task's consent. */
  predicate Stoppable(tasks: TaskTable, id: TaskId, scheduled: bool) {
    id in tasks && tasks[id].status in {Queued, Running} && (scheduled || tasks[id].options.preemptible)
  }

  function CanceledRow(t: Task, now: nat): Task {
    t.(status := Canceled, finishedAt := Some(now))
  }

  datatype Trigger = StartTrigger | StopTrigger

  /** One firing per action and minute: the UPDATE matches unless this minute is already recorded. */
  predicate Claimable(t: Task, trigger: Trigger, minute: int) {
    (if trigger.StartTrigger? then t.lastStart else t.lastStop) != Some(minute)
  }

  function Claimed(t: Task, trigger: Trigger, minute: int): Task {
    if trigger.StartTrigger? then t.(lastStart := Some(minute)) else t.(lastStop := Some(minute))
  }

  // ----- what a row always satisfies -----

  ghost predicate RowInvariant(t: Task) {
    && ValidOptions(t.options)
    && (t.status in {Queued, Paused} ==>
          t.worker == None && t.gpus == [] && t.session == None && t.startedAt == None)
    && (t.status == Running ==>
          t.worker.Some? && t.gpus != [] && t.session == Some(Site(t.worker.value, t.id)) && t.startedAt.Some?)
    && (t.finishedAt.Some? <==> t.status.Terminal())
    && (t.status == Succeeded <==> t.exitCode == Some(0))
    && (t.exitCode.Some? ==> t.status in {Succeeded, Failed})
  }

  /** Under the row invariant the edit guard is just "paused or queued". */
  lemma {:induction false} EditableExactly(t: Task)
    requires RowInvariant(t)
    ensures Editable(t) <==> t.status in {Paused, Queued}
  {
  }
}
