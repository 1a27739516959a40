/** Where a row's columns come from: the steps of the log that wrote them. */
module Provenance {
  import opened Models
  import opened Lifecycle
  import opened Capacity
  import opened Protocol
  import opened Safety

  // ----- creation and options -----

  ghost predicate Chooses(a: Action, id: TaskId) {
    (a.Create? || a.Edit?) && a.id == id
  }

  /** The last step that chose the task's options. */
  ghost predicate LastChoice(log: seq<Action>, id: TaskId, j: nat) {
    j < |log| && Chooses(log[j], id) && forall i | j < i < |log| :: !Chooses(log[i], id)
  }

  lemma {:induction false} OptionsStep(w: World, a: Action, id: TaskId)
    requires id in Next(w, a).tasks && !Chooses(a, id)
    ensures id in w.tasks && Next(w, a).tasks[id].options == w.tasks[id].options
    ensures Next(w, a).tasks[id].createdAt == w.tasks[id].createdAt
  {
    hide SiteOf;
  }

  /** A task has the options that it was created with or last edited to, and the time of its one creation. */
  lemma {:induction false} RowIsAsChosen(workers: seq<WorkerConfig>, log: seq<Action>, w: World, id: TaskId)
    returns (j: nat, c: nat)
    requires Run(workers, log, w) && id in w.tasks
    ensures LastChoice(log, id, j) && w.tasks[id].options == log[j].options
    ensures c <= j && log[c].Create? && log[c].id == id && w.tasks[id].createdAt == log[c].at
    ensures forall i | 0 <= i < |log| && log[i].Create? && log[i].id == id :: i == c
  {
    var n := |log| - 1;
    var before, a := After(EMPTY, log[..n]), log[n];
    if id in before.tasks {
      j, c := RowIsAsChosen(workers, log[..n], before, id);
      hide Fits, ValidOptions, Editable, Claimable, NextRow;
      if Chooses(a, id) {
        j := n;
        EditStep(workers, before, a, id);
      } else {
        OptionsStep(before, a, id);
      }
    } else {
      FirstRow(workers, log, before, id);
      j, c := n, n;
    }
  }

  lemma {:induction false} EditStep(workers: seq<WorkerConfig>, w: World, a: Action, id: TaskId)
    requires Enabled(workers, w, a) && Chooses(a, id) && id in w.tasks
    ensures a.Edit? && id in Next(w, a).tasks
    ensures Next(w, a).tasks[id].options == a.options && Next(w, a).tasks[id].createdAt == w.tasks[id].createdAt
  {
  }

  lemma {:induction false} NeverCreated(workers: seq<WorkerConfig>, log: seq<Action>, w: World, id: TaskId)
    requires Run(workers, log, w) && id !in w.tasks
    ensures forall i | 0 <= i < |log| :: !(log[i].Create? && log[i].id == id)
  {
    hide Fits, ValidOptions, Editable, Claimable, NextRow, SiteOf;
    if log != [] {
      var n := |log| - 1;
      NeverCreated(workers, log[..n], After(EMPTY, log[..n]), id);
    }
  }

  lemma {:induction false} FirstRow(workers: seq<WorkerConfig>, log: seq<Action>, before: World, id: TaskId)
    requires log != [] && Legal(workers, EMPTY, log) && before == After(EMPTY, log[..|log| - 1])
    requires id !in before.tasks && id in Next(before, log[|log| - 1]).tasks
    ensures var a, row := log[|log| - 1], Next(before, log[|log| - 1]).tasks[id];
            a.Create? && a.id == id && row.options == a.options && row.createdAt == a.at
    ensures forall i | 0 <= i < |log| - 1 :: !(log[i].Create? && log[i].id == id)
  {
    NeverCreated(workers, log[..|log| - 1], before, id);
    hide Fits, ValidOptions, Editable, Claimable, NextRow, SiteOf;
  }

  // ----- recorded triggers -----

  /** The step claims this trigger for the task. */
  ghost predicate Claims(a: Action, id: TaskId, trigger: Trigger) {
    a.Claim? && a.id == id && a.trigger == trigger
  }

  ghost function RecordedOf(row: Task, trigger: Trigger): Option<int> {
    if trigger.StopTrigger? then row.lastStop else row.lastStart
  }

  lemma {:induction false} TriggerStep(workers: seq<WorkerConfig>, w: World, a: Action, id: TaskId, trigger: Trigger)
    requires Enabled(workers, w, a) && id in Next(w, a).tasks
    ensures Chooses(a, id) ==> RecordedOf(Next(w, a).tasks[id], trigger) == None
    ensures !Chooses(a, id) ==>
              && id in w.tasks
              && RecordedOf(Next(w, a).tasks[id], trigger) ==
                 if Claims(a, id, trigger) then Some(a.minute) else RecordedOf(w.tasks[id], trigger)
  {
    hide SiteOf, Fits, ValidOptions;
  }

  /**
   * The minute recorded for a trigger is that of its last claim since the task was created or last edited, and
   * none is recorded if there was no such claim.
   */
  lemma {:induction false} TriggerIsLastClaim(workers: seq<WorkerConfig>, log: seq<Action>, w: World, id: TaskId,
                                              trigger: Trigger)
    returns (j: nat, k: nat)
    requires Run(workers, log, w) && id in w.tasks
    ensures LastChoice(log, id, j) && j <= k < |log|
    ensures forall i | k < i < |log| :: !Claims(log[i], id, trigger)
    ensures RecordedOf(w.tasks[id], trigger) ==
            if j < k && Claims(log[k], id, trigger) then Some(log[k].minute) else None
    ensures j < k ==> Claims(log[k], id, trigger)
  {
    var n := |log| - 1;
    var before, a := After(EMPTY, log[..n]), log[n];
    hide Fits, ValidOptions, Editable, Claimable, NextRow, SiteOf;
    TriggerStep(workers, before, a, id, trigger);
    hide Next, RecordedOf;
    if Chooses(a, id) {
      j, k := n, n;
    } else {
      j, k := TriggerIsLastClaim(workers, log[..n], before, id, trigger);
      if Claims(a, id, trigger) {
        k := n;
      }
    }
  }

  // ----- the present run -----

  ghost predicate RunsAs(row: Task, start: Action) {
    start.Start? && row.startedAt == Some(start.at) && row.worker == Some(start.worker.name) && row.gpus == start.gpus
  }

  lemma {:induction false} StartStepRow(workers: seq<WorkerConfig>, w: World, a: Action, id: TaskId)
    requires Enabled(workers, w, a) && Starts(a, id)
    ensures id in Next(w, a).tasks && RunsAs(Next(w, a).tasks[id], a)
  {
  }

  lemma {:induction false} RunStep(workers: seq<WorkerConfig>, w: World, a: Action, id: TaskId)
    requires Enabled(workers, w, a) && !Starts(a, id)
    requires id in Next(w, a).tasks && Next(w, a).tasks[id].status == Running
    ensures id in w.tasks && w.tasks[id].status == Running
    ensures var row, was := Next(w, a).tasks[id], w.tasks[id];
            row.startedAt == was.startedAt && row.worker == was.worker && row.gpus == was.gpus
  {
    hide Fits, ValidOptions, SiteOf;
  }

  /** A running task's start time, worker and GPUs are those of the start of its present run. */
  lemma {:induction false} RunningRowIsItsStart(workers: seq<WorkerConfig>, log: seq<Action>, w: World, id: TaskId)
    returns (j: nat)
    requires Run(workers, log, w) && id in w.tasks && w.tasks[id].status == Running
    ensures j < |log| && Starts(log[j], id) && RunsAs(w.tasks[id], log[j])
    ensures forall i | j < i < |log| :: !Starts(log[i], id)
  {
    var n := |log| - 1;
    var before, a := After(EMPTY, log[..n]), log[n];
    hide Fits, ValidOptions, Editable, Claimable, NextRow, Next, SiteOf;
    if Starts(a, id) {
      j := n;
      StartStepRow(workers, before, a, id);
    } else {
      RunStep(workers, before, a, id);
      j := RunningRowIsItsStart(workers, log[..n], before, id);
    }
  }

  // ----- the end -----

  /** The steps after which a task is over. */
  ghost predicate EndsTask(a: Action, id: TaskId) {
    (a.Finish? || a.Lose? || a.Cancel?) && a.id == id
  }

  ghost predicate EndedBy(row: Task, a: Action) {
    && (a.Finish? || a.Lose? || a.Cancel?)
    && row.finishedAt == Some(a.at)
    && (row.status == Canceled <==> a.Cancel?)
    && (row.status == Succeeded ==> a.Finish?)
    && (a.Lose? ==> row.status == Failed && row.exitCode == None)
  }

  lemma {:induction false} EndStep(workers: seq<WorkerConfig>, w: World, a: Action, id: TaskId)
    requires RowsInvariant(w.tasks) && Enabled(workers, w, a)
    requires id in Next(w, a).tasks && Next(w, a).tasks[id].status.Terminal()
    ensures EndsTask(a, id) ==> EndedBy(Next(w, a).tasks[id], a)
    ensures !EndsTask(a, id) ==>
              && id in w.tasks && w.tasks[id].status.Terminal()
              && (forall e :: EndedBy(w.tasks[id], e) ==> EndedBy(Next(w, a).tasks[id], e))
  {
    hide Fits, ValidOptions, SiteOf;
    if id in w.tasks {
      assert RowInvariant(w.tasks[id]);
    }
  }

  /** A finished task's end time is that of the step that ended it, which also says how it ended. */
  lemma {:induction false} TerminalRowIsItsEnd(workers: seq<WorkerConfig>, log: seq<Action>, w: World, id: TaskId)
    returns (j: nat)
    requires ValidWorkers(workers) && Run(workers, log, w) && id in w.tasks && w.tasks[id].status.Terminal()
    ensures j < |log| && EndsTask(log[j], id) && EndedBy(w.tasks[id], log[j])
    ensures forall i | j < i < |log| :: !EndsTask(log[i], id)
  {
    var n := |log| - 1;
    var before, a := After(EMPTY, log[..n]), log[n];
    EveryRunKeepsInvariant(workers, log[..n], before);
    hide Fits, ValidOptions, Editable, Claimable, NextRow, Next, SiteOf, RowsInvariant, EndedBy;
    EndStep(workers, before, a, id);
    if EndsTask(a, id) {
      j := n;
    } else {
      j := TerminalRowIsItsEnd(workers, log[..n], before, id);
    }
  }

  // ----- the status -----

  /** The steps that move a task from one status to another. */
  ghost predicate Moves(a: Action, id: TaskId) {
    && (|| a.Create? || a.Unpause? || a.RerunFailed? || a.Preempt? || a.Pause? || a.Start? || a.Cancel? || a.Lose?
        || a.Finish?)
    && a.id == id
  }

  /** Where such a step leaves the task. */
  ghost predicate MovedTo(row: Task, a: Action) {
    match a
    case Create(_, _, paused, _) => row.status == if paused then Paused else Queued
    case Unpause(_) => row.status == Queued
    case RerunFailed(_) => row.status == Queued
    case Preempt(_) => row.status == Queued
    case Pause(_, _) => row.status == Paused
    case Start(_, _, _, _) => row.status == Running
    case Cancel(_, _) => row.status == Canceled
    case Lose(_, _) => row.status in {Queued, Failed} && row.exitCode == None
    case Finish(_, _) => row.exitCode.Some? && row.status == if row.exitCode == Some(0) then Succeeded else Failed
    case _ => false
  }

  lemma {:induction false} MoveStep(workers: seq<WorkerConfig>, w: World, a: Action, id: TaskId)
    requires RowsInvariant(w.tasks) && Enabled(workers, w, a) && id in Next(w, a).tasks
    ensures Moves(a, id) ==> MovedTo(Next(w, a).tasks[id], a)
    ensures !Moves(a, id) ==>
              && id in w.tasks
              && Next(w, a).tasks[id].status == w.tasks[id].status
              && Next(w, a).tasks[id].exitCode == w.tasks[id].exitCode
  {
    hide Fits, ValidOptions, Claimable, Editable;
    if id in w.tasks {
      assert RowInvariant(w.tasks[id]);
    }
  }

  lemma {:induction false} StayedMoved(was: Task, row: Task, a: Action)
    requires MovedTo(was, a) && row.status == was.status && row.exitCode == was.exitCode
    ensures MovedTo(row, a)
  {
  }

  /** A task's status is the one in which the last step that moved it left it. */
  lemma {:induction false} StatusIsLastMove(workers: seq<WorkerConfig>, log: seq<Action>, w: World, id: TaskId)
    returns (j: nat)
    requires ValidWorkers(workers) && Run(workers, log, w) && id in w.tasks
    ensures j < |log| && Moves(log[j], id) && MovedTo(w.tasks[id], log[j])
    ensures forall i | j < i < |log| :: !Moves(log[i], id)
  {
    var n := |log| - 1;
    var before, a := After(EMPTY, log[..n]), log[n];
    EveryRunKeepsInvariant(workers, log[..n], before);
    hide Fits, ValidOptions, Editable, Claimable, NextRow, Next, SiteOf, RowsInvariant, Moves, MovedTo;
    MoveStep(workers, before, a, id);
    if Moves(a, id) {
      j := n;
    } else {
      j := StatusIsLastMove(workers, log[..n], before, id);
      StayedMoved(before.tasks[id], w.tasks[id], log[j]);
    }
  }
}
