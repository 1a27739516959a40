/**
 * The task protocol as a transition system: the task table together with the remote sessions and exit
 * files it is meant to agree with. Every control operation, dispatch step and remote event is one action;
 * the classes of this project log the actions they perform, so what holds of every legal log here holds
 * of every run of the scheduler.
 */
module Protocol {
  import opened Models
  import opened Lifecycle
  import opened Capacity

  /** `live` are the tmux sessions that exist, `exits` the exit codes on disk, both by worker and task. */
  datatype World = World(tasks: TaskTable, live: set<Site>, exits: map<Site, int>)

  const EMPTY := World(map[], {}, map[])

  datatype Action =
    // rows
    | Create(id: TaskId, options: TaskOptions, paused: bool, at: nat)
    | Edit(id: TaskId, options: TaskOptions)
    | Claim(id: TaskId, trigger: Trigger, minute: int)
    | Unpause(id: TaskId)
    | Pause(id: TaskId, scheduled: bool)
    | RerunFailed(id: TaskId)
    | Cancel(id: TaskId, at: nat)
    | Preempt(id: TaskId)
    | Lose(id: TaskId, at: nat)
    | Finish(id: TaskId, at: nat)
    // the worker
    | Start(id: TaskId, worker: WorkerConfig, gpus: seq<int>, at: nat)
    | ClearExit(id: TaskId, worker: WorkerConfig)
    | Kill(id: TaskId)
    | SessionDies(site: Site)
    | SessionExits(site: Site, code: int)

  function SiteOf(t: Task): Site {
    if t.session.Some? then t.session.value else Site("", t.id)
  }

  /** When each action can happen: the guard of its SQL update plus what its caller has checked by then. */
  ghost predicate Enabled(workers: seq<WorkerConfig>, w: World, a: Action) {
    match a
    case Create(id, options, _, _) => id !in w.tasks && ValidOptions(options)
    case Edit(id, options) => id in w.tasks && Editable(w.tasks[id]) && ValidOptions(options)
    case Claim(id, trigger, minute) => id in w.tasks && Claimable(w.tasks[id], trigger, minute)
    case Unpause(id) => id in w.tasks && w.tasks[id].status == Paused
    case Pause(id, scheduled) =>
      && id in w.tasks && w.tasks[id].status in {Queued, Running}
      && (scheduled || w.tasks[id].options.preemptible)
      && (w.tasks[id].status == Running ==> SiteOf(w.tasks[id]) !in w.live)
    case RerunFailed(id) => id in w.tasks && w.tasks[id].status == Failed
    case Cancel(id, _) => id in w.tasks && w.tasks[id].status in {Paused, Queued, Running}
    case Preempt(id) =>
      && id in w.tasks && w.tasks[id].status == Running
      && (w.tasks[id].options.background || w.tasks[id].options.preemptible)
      && SiteOf(w.tasks[id]) !in w.live
    case Lose(id, _) => id in w.tasks && w.tasks[id].status == Running && SiteOf(w.tasks[id]) !in w.live
    case Finish(id, _) => id in w.tasks && w.tasks[id].status == Running && SiteOf(w.tasks[id]) in w.exits
    case Start(id, worker, gpus, _) =>
      && id in w.tasks && w.tasks[id].status == Queued
      && worker in workers && Fits(worker, w.tasks, w.tasks[id].options, gpus)
    case ClearExit(id, worker) => id in w.tasks && w.tasks[id].status == Queued
    case Kill(id) => id in w.tasks && w.tasks[id].status == Running
    case SessionDies(site) => site in w.live
    case SessionExits(site, _) => site in w.live
  }

  ghost function Next(w: World, a: Action): World {
    match a
    case Create(id, options, paused, at) => w.(tasks := w.tasks[id := NewRow(id, options, paused, at)])
    case ClearExit(id, worker) => w.(exits := w.exits - {Site(worker.name, id)})
    case SessionDies(site) => w.(live := w.live - {site})
    case SessionExits(site, code) => w.(live := w.live - {site}, exits := w.exits[site := code])
    case _ =>
      if a.id !in w.tasks then w else
      var row := w.tasks[a.id];
      match a
      case Kill(_) => w.(live := w.live - {SiteOf(row)})
      case Start(id, worker, gpus, at) =>
        var site := Site(worker.name, id);
        World(w.tasks[id := MarkedRunning(row, worker.name, gpus, site, at)], w.live + {site}, w.exits - {site})
      case _ => w.(tasks := w.tasks[a.id := NextRow(w, row, a)])
  }

  /** The row an action that only touches the table leaves behind. */
  ghost function NextRow(w: World, row: Task, a: Action): Task {
    match a
    case Edit(_, options) => Edited(row, options)
    case Claim(_, trigger, minute) => Claimed(row, trigger, minute)
    case Unpause(_) => Unpaused(row)
    case Pause(_, _) => PausedRow(row)
    case RerunFailed(_) => Rerun(row)
    case Cancel(_, at) => CanceledRow(row, at)
    case Preempt(_) => Requeued(row)
    case Lose(_, at) => if row.options.preemptible then Requeued(row) else FailedWithoutCode(row, at)
    case Finish(_, at) => if SiteOf(row) in w.exits then Finished(row, w.exits[SiteOf(row)], at) else row
    case _ => row
  }

  // ----- runs -----

  ghost function After(w: World, log: seq<Action>): World {
    if log == [] then w else Next(After(w, log[..|log| - 1]), log[|log| - 1])
  }

  ghost predicate Legal(workers: seq<WorkerConfig>, w: World, log: seq<Action>) {
    log == [] ||
    (Legal(workers, w, log[..|log| - 1]) && Enabled(workers, After(w, log[..|log| - 1]), log[|log| - 1]))
  }

  /** A run from the empty table, as the daemon's first start finds it. */
  ghost predicate Run(workers: seq<WorkerConfig>, log: seq<Action>, w: World) {
    Legal(workers, EMPTY, log) && After(EMPTY, log) == w
  }

  lemma {:induction false} RunExtends(workers: seq<WorkerConfig>, log: seq<Action>, w: World, a: Action)
    requires Run(workers, log, w)
    requires Enabled(workers, w, a)
    ensures Run(workers, log + [a], Next(w, a))
  {
    assert (log + [a])[..|log|] == log;
  }

  // ----- the invariant of every run -----

  ghost predicate RowsInvariant(tasks: TaskTable) {
    forall t | t in tasks :: tasks[t].id == t && RowInvariant(tasks[t])
  }

  /** A live session belongs to the running row that names it, or to a row canceled while its kill failed. */
  ghost predicate SessionsInvariant(w: World) {
    forall s | s in w.live ::
      s.task in w.tasks && w.tasks[s.task].session == Some(s) && w.tasks[s.task].status in {Running, Canceled}
  }

  /** An exit code under a running row's own session means that the session has ended. */
  ghost predicate ExitsInvariant(w: World) {
    forall t | t in w.tasks && w.tasks[t].status == Running && SiteOf(w.tasks[t]) in w.exits ::
      SiteOf(w.tasks[t]) !in w.live
  }

  ghost predicate Placed(workers: seq<WorkerConfig>, t: Task) {
    t.status == Running ==> exists i :: 0 <= i < |workers| && t.worker == Some(workers[i].name)
  }

  ghost predicate AllPlaced(workers: seq<WorkerConfig>, tasks: TaskTable) {
    forall t | t in tasks :: Placed(workers, tasks[t])
  }

  ghost predicate Invariant(workers: seq<WorkerConfig>, w: World) {
    && RowsInvariant(w.tasks)
    && SessionsInvariant(w)
    && ExitsInvariant(w)
    && CapacityKept(workers, w.tasks)
  }

  /** The actions that leave the task table alone. */
  ghost predicate RemoteOnly(a: Action) {
    a.ClearExit? || a.Kill? || a.SessionDies? || a.SessionExits?
  }

  /** A row that an action other than a start or a creation leaves keeps its id and the row invariant. */
  lemma {:induction false} NextRowIsValid(workers: seq<WorkerConfig>, w: World, a: Action)
    requires Enabled(workers, w, a) && !RemoteOnly(a) && !a.Start? && !a.Create?
    requires w.tasks[a.id].id == a.id && RowInvariant(w.tasks[a.id])
    ensures var row := NextRow(w, w.tasks[a.id], a);
            row.id == a.id && RowInvariant(row)
  {
    hide ValidOptions, Editable, Claimable, SiteOf;
  }

  lemma {:induction false} StartedRowIsValid(workers: seq<WorkerConfig>, w: World, a: Action)
    requires Enabled(workers, w, a) && a.Start?
    requires w.tasks[a.id].id == a.id && RowInvariant(w.tasks[a.id])
    ensures var row := MarkedRunning(w.tasks[a.id], a.worker.name, a.gpus, Site(a.worker.name, a.id), a.at);
            row.id == a.id && RowInvariant(row)
  {
    hide ParsedSchedule, BusyGpus, Held, BackgroundOn;
  }

  /** Every other action replaces one row by a row that satisfies the row invariant. */
  lemma {:induction false} StepReplacesOneRow(workers: seq<WorkerConfig>, w: World, a: Action)
    requires Enabled(workers, w, a) && !RemoteOnly(a)
    requires a.Create? || (w.tasks[a.id].id == a.id && RowInvariant(w.tasks[a.id]))
    ensures a.id in Next(w, a).tasks
    ensures var row := Next(w, a).tasks[a.id];
            Next(w, a).tasks == w.tasks[a.id := row] && row.id == a.id && RowInvariant(row)
  {
    if a.Create? {
      hide ValidOptions;
    } else if a.Start? {
      StartedRowIsValid(workers, w, a);
      hide RowInvariant, Fits;
    } else {
      NextRowIsValid(workers, w, a);
      hide Enabled, RowInvariant, NextRow;
    }
  }

  lemma {:induction false} StepKeepsRows(workers: seq<WorkerConfig>, w: World, a: Action)
    requires RowsInvariant(w.tasks) && Enabled(workers, w, a)
    ensures RowsInvariant(Next(w, a).tasks)
  {
    hide RowInvariant, NextRow, Fits, ValidOptions, Editable, Claimable;
    if !RemoteOnly(a) {
      StepReplacesOneRow(workers, w, a);
    }
  }

  /** A row action other than a start leaves a live session's row naming it, and can only leave RUNNING. */
  lemma {:induction false} RowStepKeepsOwner(workers: seq<WorkerConfig>, w: World, a: Action)
    requires Enabled(workers, w, a) && !RemoteOnly(a) && !a.Start? && !a.Create?
    requires w.tasks[a.id].id == a.id && RowInvariant(w.tasks[a.id]) && ExitsInvariant(w)
    ensures var before, after := w.tasks[a.id], Next(w, a).tasks[a.id];
            && Next(w, a).live == w.live && Next(w, a).exits == w.exits
            && (after.status == Running ==> before.status == Running && after.session == before.session)
            && (before.status in {Running, Canceled} && before.session.Some? && SiteOf(before) in w.live ==>
                  after.session == before.session && after.status in {Running, Canceled})
  {
  }

  /** The row names a session that is still there. */
  ghost predicate OwnsLive(w: World, id: TaskId) {
    id in w.tasks && w.tasks[id].status in {Running, Canceled} && w.tasks[id].session.Some?
    && SiteOf(w.tasks[id]) in w.live
  }

  lemma {:induction false} RowStepKeepsSessions(w: World, after: World, id: TaskId)
    requires SessionsInvariant(w) && ExitsInvariant(w)
    requires id in after.tasks && after.tasks == w.tasks[id := after.tasks[id]]
    requires after.live == w.live && after.exits == w.exits
    requires id in w.tasks ==>
               && w.tasks[id].id == id && after.tasks[id].id == id
               && (after.tasks[id].status == Running ==>
                     w.tasks[id].status == Running && after.tasks[id].session == w.tasks[id].session)
               && (OwnsLive(w, id) ==>
                     after.tasks[id].session == w.tasks[id].session && after.tasks[id].status in {Running, Canceled})
    requires id !in w.tasks ==> after.tasks[id].status != Running
    ensures SessionsInvariant(after) && ExitsInvariant(after)
  {
  }

  lemma {:induction false} StartKeepsSessions(workers: seq<WorkerConfig>, w: World, a: Action)
    requires RowsInvariant(w.tasks) && SessionsInvariant(w) && ExitsInvariant(w) && Enabled(workers, w, a) && a.Start?
    ensures SessionsInvariant(Next(w, a)) && ExitsInvariant(Next(w, a))
  {
    var after := Next(w, a);
    assert forall s | s in w.live :: s.task != a.id;
    forall t | t in after.tasks && after.tasks[t].status == Running && SiteOf(after.tasks[t]) in after.exits
      ensures SiteOf(after.tasks[t]) !in after.live
    {
      if t != a.id {
        assert SiteOf(w.tasks[t]).task == t;
      }
    }
  }

  lemma {:induction false} RemoteStepKeepsSessions(workers: seq<WorkerConfig>, w: World, a: Action)
    requires RowsInvariant(w.tasks) && SessionsInvariant(w) && ExitsInvariant(w) && Enabled(workers, w, a)
             && RemoteOnly(a)
    ensures SessionsInvariant(Next(w, a)) && ExitsInvariant(Next(w, a))
  {
    hide RowInvariant, NextRow, Fits, ValidOptions, Editable, Claimable;
  }

  lemma {:induction false} StepKeepsSessions(workers: seq<WorkerConfig>, w: World, a: Action)
    requires RowsInvariant(w.tasks) && SessionsInvariant(w) && ExitsInvariant(w) && Enabled(workers, w, a)
    ensures SessionsInvariant(Next(w, a)) && ExitsInvariant(Next(w, a))
  {
    if RemoteOnly(a) {
      RemoteStepKeepsSessions(workers, w, a);
    } else if a.Start? {
      StartKeepsSessions(workers, w, a);
    } else {
      StepReplacesOneRow(workers, w, a);
      if !a.Create? {
        RowStepKeepsOwner(workers, w, a);
      }
      RowStepKeepsSessions(w, Next(w, a), a.id);
    }
  }

  /** A row that runs after a step other than its start ran before it, in the same place. */
  lemma {:induction false} RowStepKeepsPlacement(workers: seq<WorkerConfig>, w: World, a: Action)
    requires Enabled(workers, w, a) && !RemoteOnly(a) && !a.Start?
    requires a.id in Next(w, a).tasks
    ensures SamePlacement(w.tasks, Next(w, a).tasks[a.id], a.id)
  {
    hide Fits, ValidOptions;
  }

  ghost predicate SamePlacement(tasks: TaskTable, row: Task, id: TaskId) {
    row.status == Running ==>
      && id in tasks && tasks[id].status == Running
      && row.worker == tasks[id].worker && row.gpus == tasks[id].gpus && row.options == tasks[id].options
  }

  ghost predicate CapacityKept(workers: seq<WorkerConfig>, tasks: TaskTable) {
    CapacityInvariant(workers, tasks) && AllPlaced(workers, tasks)
  }

  lemma {:induction false} RowKeepsCapacity(workers: seq<WorkerConfig>, tasks: TaskTable, row: Task)
    ensures CapacityKept(workers, tasks) && SamePlacement(tasks, row, row.id) ==>
              CapacityKept(workers, tasks[row.id := row])
  {
    hide WithinLimits, FitsRequest;
    if CapacityKept(workers, tasks) && SamePlacement(tasks, row, row.id) {
      forall i | 0 <= i < |workers|
        ensures WithinLimits(workers[i], tasks[row.id := row])
      {
        if row.status == Running {
          SamePlacementKeepsLimits(workers[i], tasks, row);
        } else {
          ReleasingKeepsLimits(workers[i], tasks, row);
        }
      }
    }
  }

  ghost predicate Startable(tasks: TaskTable, worker: WorkerConfig, row: Task) {
    && row.id in tasks && tasks[row.id].status != Running
    && row.status == Running && row.worker == Some(worker.name)
    && Fits(worker, tasks, row.options, row.gpus)
  }

  lemma {:induction false} StartKeepsCapacity(workers: seq<WorkerConfig>, tasks: TaskTable, worker: WorkerConfig,
                                              row: Task)
    requires ValidWorkers(workers) && worker in workers
    ensures CapacityKept(workers, tasks) && Startable(tasks, worker, row) ==>
              CapacityKept(workers, tasks[row.id := row])
  {
    hide WithinLimits, FitsRequest, ValidWorker;
    if CapacityKept(workers, tasks) && Startable(tasks, worker, row) {
      forall i | 0 <= i < |workers|
        ensures WithinLimits(workers[i], tasks[row.id := row])
      {
        StartingKeepsLimits(workers[i], worker, tasks, row);
      }
      var i :| 0 <= i < |workers| && workers[i] == worker;
      assert row.worker == Some(workers[i].name);
    }
  }

  lemma {:induction false} StepKeepsCapacity(workers: seq<WorkerConfig>, w: World, a: Action)
    requires ValidWorkers(workers)
    requires Invariant(workers, w) && Enabled(workers, w, a)
    ensures CapacityKept(workers, Next(w, a).tasks)
  {
    hide CapacityInvariant, AllPlaced, Fits, RowInvariant, SessionsInvariant, ExitsInvariant, NextRow, ValidOptions,
      Editable, Claimable;
    if !RemoteOnly(a) {
      StepReplacesOneRow(workers, w, a);
      var row := Next(w, a).tasks[a.id];
      if a.Start? {
        StartKeepsCapacity(workers, w.tasks, a.worker, row);
      } else {
        RowStepKeepsPlacement(workers, w, a);
        RowKeepsCapacity(workers, w.tasks, row);
      }
    }
  }

  /** Every reachable state: the row, session, exit-file and capacity invariants all hold. */
  lemma {:induction false} EveryRunKeepsInvariant(workers: seq<WorkerConfig>, log: seq<Action>, w: World)
    requires ValidWorkers(workers)
    requires Run(workers, log, w)
    ensures Invariant(workers, w)
  {
    if log == [] {
      forall i | 0 <= i < |workers|
        ensures WithinLimits(workers[i], EMPTY.tasks)
      {
        assert Held(EMPTY.tasks, workers[i].name) == {} && BackgroundOn(EMPTY.tasks, workers[i].name) == {};
        assert ValidWorker(workers[i]);
      }
    } else {
      var before := After(EMPTY, log[..|log| - 1]);
      EveryRunKeepsInvariant(workers, log[..|log| - 1], before);
      StepKeepsRows(workers, before, log[|log| - 1]);
      StepKeepsSessions(workers, before, log[|log| - 1]);
      StepKeepsCapacity(workers, before, log[|log| - 1]);
    }
  }
}
