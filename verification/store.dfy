/** The task table of gpu_watcher/store.py: every method is one guarded UPDATE or INSERT. */
module TaskStore {
  import opened Models
  import opened Lifecycle

  class Store {
    var tasks: TaskTable
    var nextId: TaskId

    ghost predicate Valid()
      reads this
    {
      forall t | t in tasks :: t < nextId
    }

    constructor ()
      ensures Valid() && tasks == map[]
    {
      tasks, nextId := map[], 0;
    }

    method CreateTask(options: TaskOptions, paused: bool, now: nat) returns (r: Result<TaskId>)
      requires Valid()
      modifies this
      ensures Valid()
      ensures r.Ok? <==> Normalize(options).Ok?
      ensures r.Ok? ==> r.value !in old(tasks)
      ensures tasks == if r.Ok? then old(tasks)[r.value := NewRow(r.value, Normalize(options).value, paused, now)]
              else old(tasks)
    {
      match Normalize(options) {
        case Err(e) =>
          r := Err(e);
        case Ok(normalized) =>
          r := Ok(nextId);
          tasks := tasks[nextId := NewRow(nextId, normalized, paused, now)];
          nextId := nextId + 1;
      }
    }

    method UpdateTask(id: TaskId, options: TaskOptions) returns (r: Result<bool>)
      requires Valid()
      modifies this`tasks
      ensures Valid()
      ensures r.Ok? <==> Normalize(options).Ok?
      ensures r.Ok? ==> (r.value <==> id in old(tasks) && Editable(old(tasks)[id]))
      ensures tasks == if r == Ok(true) then old(tasks)[id := Edited(old(tasks)[id], Normalize(options).value)]
              else old(tasks)
    {
      match Normalize(options) {
        case Err(e) =>
          r := Err(e);
        case Ok(normalized) =>
          r := Ok(id in tasks && Editable(tasks[id]));
          if r.value {
            tasks := tasks[id := Edited(tasks[id], normalized)];
          }
      }
    }

    method ClaimScheduleTrigger(id: TaskId, trigger: Trigger, minute: int) returns (claimed: bool)
      requires Valid()
      modifies this`tasks
      ensures Valid()
      ensures claimed <==> id in old(tasks) && Claimable(old(tasks)[id], trigger, minute)
      ensures tasks == if claimed then old(tasks)[id := Claimed(old(tasks)[id], trigger, minute)] else old(tasks)
    {
      claimed := id in tasks && Claimable(tasks[id], trigger, minute);
      if claimed {
        tasks := tasks[id := Claimed(tasks[id], trigger, minute)];
      }
    }

    method MarkRunning(id: TaskId, worker: WorkerName, gpus: seq<int>, session: Site, now: nat) returns (changed: bool)
      requires Valid()
      modifies this`tasks
      ensures Valid()
      ensures changed <==> id in old(tasks) && old(tasks)[id].status == Queued
      ensures tasks == if changed then old(tasks)[id := MarkedRunning(old(tasks)[id], worker, gpus, session, now)]
              else old(tasks)
    {
      changed := id in tasks && tasks[id].status == Queued;
      if changed {
        tasks := tasks[id := MarkedRunning(tasks[id], worker, gpus, session, now)];
      }
    }

    method FinishTask(id: TaskId, exitCode: int, now: nat)
      requires Valid()
      modifies this`tasks
      ensures Valid()
      ensures tasks == if id in old(tasks) && old(tasks)[id].status == Running
                       then old(tasks)[id := Finished(old(tasks)[id], exitCode, now)] else old(tasks)
    {
      if id in tasks && tasks[id].status == Running {
        tasks := tasks[id := Finished(tasks[id], exitCode, now)];
      }
    }

    method FailTask(id: TaskId, now: nat)
      requires Valid()
      modifies this`tasks
      ensures Valid()
      ensures tasks == if id in old(tasks) && old(tasks)[id].status == Running
                       then old(tasks)[id := FailedWithoutCode(old(tasks)[id], now)] else old(tasks)
    {
      if id in tasks && tasks[id].status == Running {
        tasks := tasks[id := FailedWithoutCode(tasks[id], now)];
      }
    }

    /** `requeue_task` and `preempt_task`. */
    method RequeueTask(id: TaskId) returns (changed: bool)
      requires Valid()
      modifies this`tasks
      ensures Valid()
      ensures changed <==> id in old(tasks) && old(tasks)[id].status == Running
      ensures tasks == if changed then old(tasks)[id := Requeued(old(tasks)[id])] else old(tasks)
    {
      changed := id in tasks && tasks[id].status == Running;
      if changed {
        tasks := tasks[id := Requeued(tasks[id])];
      }
    }

    method StartTask(id: TaskId) returns (changed: bool)
      requires Valid()
      modifies this`tasks
      ensures Valid()
      ensures changed <==> id in old(tasks) && old(tasks)[id].status == Paused
      ensures tasks == if changed then old(tasks)[id := Unpaused(old(tasks)[id])] else old(tasks)
    {
      changed := id in tasks && tasks[id].status == Paused;
      if changed {
        tasks := tasks[id := Unpaused(tasks[id])];
      }
    }

    method PauseTask(id: TaskId, requirePreemptible: bool) returns (changed: bool)
      requires Valid()
      modifies this`tasks
      ensures Valid()
      ensures changed <==>
              && id in old(tasks) && old(tasks)[id].status in {Queued, Running}
              && (requirePreemptible ==> old(tasks)[id].options.preemptible)
      ensures tasks == if changed then old(tasks)[id := PausedRow(old(tasks)[id])] else old(tasks)
    {
      changed := id in tasks && tasks[id].status in {Queued, Running}
        && (requirePreemptible ==> tasks[id].options.preemptible);
      if changed {
        tasks := tasks[id := PausedRow(tasks[id])];
      }
    }

    method RerunTask(id: TaskId) returns (changed: bool)
      requires Valid()
      modifies this`tasks
      ensures Valid()
      ensures changed <==> id in old(tasks) && old(tasks)[id].status == Failed
      ensures tasks == if changed then old(tasks)[id := Rerun(old(tasks)[id])] else old(tasks)
    {
      changed := id in tasks && tasks[id].status == Failed;
      if changed {
        tasks := tasks[id := Rerun(tasks[id])];
      }
    }

    method CancelTask(id: TaskId, now: nat) returns (changed: bool)
      requires Valid()
      modifies this`tasks
      ensures Valid()
      ensures changed <==> id in old(tasks) && old(tasks)[id].status in {Paused, Queued, Running}
      ensures tasks == if changed then old(tasks)[id := CanceledRow(old(tasks)[id], now)] else old(tasks)
    {
      changed := id in tasks && tasks[id].status in {Paused, Queued, Running};
      if changed {
        tasks := tasks[id := CanceledRow(tasks[id], now)];
      }
    }
  }
}
