/** Safety over whole runs of the task protocol, for every interleaving of controls, passes and remote events. */
module Safety {
  import opened Models
  import opened Lifecycle
  import opened Capacity
  import opened Protocol

  // ----- at most one live copy -----

  /** A task waiting to run has no session anywhere, and no task ever has two. */
  lemma {:induction false} NoSecondCopy(workers: seq<WorkerConfig>, log: seq<Action>, w: World)
    requires ValidWorkers(workers)
    requires Run(workers, log, w)
    ensures forall s | s in w.live ::
              s.task in w.tasks && w.tasks[s.task].status !in {Queued, Paused, Succeeded, Failed}
    ensures forall s, t | s in w.live && t in w.live && s.task == t.task :: s == t
  {
    EveryRunKeepsInvariant(workers, log, w);
  }

  /** A running task holds as many GPUs as it asked for, an elastic one at least one of them, and none of them twice. */
  lemma {:induction false} RunningHoldsItsRequest(workers: seq<WorkerConfig>, log: seq<Action>, w: World, id: TaskId)
    requires ValidWorkers(workers) && Run(workers, log, w)
    requires id in w.tasks && w.tasks[id].status == Running
    ensures var t := w.tasks[id];
            && |t.gpus| <= t.options.requestedGpus && (|t.gpus| < t.options.requestedGpus ==> t.options.elastic)
            && t.gpus != []
            && forall i, j | 0 <= i < j < |t.gpus| :: t.gpus[i] != t.gpus[j]
  {
    EveryRunKeepsInvariant(workers, log, w);
    hide SessionsInvariant, ExitsInvariant, WithinLimits;
    assert RowInvariant(w.tasks[id]);
  }

  /** Two running tasks of one worker share no GPU. */
  lemma {:induction false} RunningShareNothing(workers: seq<WorkerConfig>, log: seq<Action>, w: World, i: nat,
                                               t: TaskId, u: TaskId)
    requires ValidWorkers(workers) && Run(workers, log, w) && i < |workers|
    requires t in w.tasks && u in w.tasks && t != u
    requires w.tasks[t].status == Running && w.tasks[t].worker == Some(workers[i].name)
    requires w.tasks[u].status == Running && w.tasks[u].worker == Some(workers[i].name)
    ensures forall g | g in w.tasks[t].gpus :: g !in w.tasks[u].gpus
  {
    EveryRunKeepsInvariant(workers, log, w);
    hide SessionsInvariant, ExitsInvariant;
    assert WithinLimits(workers[i], w.tasks);
    assert t in OnWorker(w.tasks, workers[i].name) && u in OnWorker(w.tasks, workers[i].name);
  }

  // ----- runs and their prefixes -----

  lemma {:induction false} PrefixIsRun(workers: seq<WorkerConfig>, log: seq<Action>, k: nat)
    requires Legal(workers, EMPTY, log) && k <= |log|
    ensures Run(workers, log[..k], After(EMPTY, log[..k]))
    decreases |log|
  {
    if k < |log| {
      PrefixIsRun(workers, log[..|log| - 1], k);
      assert log[..|log| - 1][..k] == log[..k];
    } else {
      assert log[..k] == log;
    }
  }

  ghost function At(log: seq<Action>, k: nat): World
    requires k <= |log|
  {
    After(EMPTY, log[..k])
  }

  lemma {:induction false} StepAt(workers: seq<WorkerConfig>, log: seq<Action>, k: nat)
    requires Legal(workers, EMPTY, log) && k < |log|
    ensures Legal(workers, EMPTY, log[..k])
    ensures Enabled(workers, At(log, k), log[k])
    ensures At(log, k + 1) == Next(At(log, k), log[k])
  {
    PrefixIsRun(workers, log, k + 1);
    assert log[..k + 1][..k] == log[..k];
  }

  lemma {:induction false} InvariantAt(workers: seq<WorkerConfig>, log: seq<Action>, k: nat)
    requires ValidWorkers(workers)
    requires Legal(workers, EMPTY, log) && k <= |log|
    ensures Invariant(workers, At(log, k))
  {
    PrefixIsRun(workers, log, k);
    EveryRunKeepsInvariant(workers, log[..k], At(log, k));
  }

  // ----- an exit code belongs to the run it finishes -----

  ghost predicate Starts(a: Action, id: TaskId) {
    a.Start? && a.id == id
  }

  /** The task's current run began at step `j` on the site its row names, and was not restarted since. */
  ghost predicate CurrentRun(log: seq<Action>, id: TaskId, s: Site, j: nat) {
    && j < |log| && Starts(log[j], id) && s == Site(log[j].worker.name, id)
    && forall i | j < i < |log| :: !Starts(log[i], id)
  }

  ghost predicate WrittenSince(log: seq<Action>, s: Site, code: int, j: nat, m: nat) {
    j < m < |log| && log[m] == SessionExits(s, code)
  }

  lemma {:induction false} ExitFileIsCurrent(workers: seq<WorkerConfig>, log: seq<Action>, w: World, id: TaskId)
    returns (j: nat, m: nat)
    requires ValidWorkers(workers)
    requires Run(workers, log, w)
    requires id in w.tasks && w.tasks[id].status == Running
    ensures CurrentRun(log, id, SiteOf(w.tasks[id]), j)
    ensures SiteOf(w.tasks[id]) in w.exits ==>
              WrittenSince(log, SiteOf(w.tasks[id]), w.exits[SiteOf(w.tasks[id])], j, m)
  {
    hide Fits, ValidOptions, Editable, Claimable, CapacityKept, SessionsInvariant, ExitsInvariant, NextRow;
    var n := |log| - 1;
    var before := After(EMPTY, log[..n]);
    var a := log[n];
    EveryRunKeepsInvariant(workers, log[..n], before);
    var s := SiteOf(w.tasks[id]);
    m := n;
    if Starts(a, id) {
      j := n;
    } else {
      StillRunning(workers, before, a, id);
      j, m := ExitFileIsCurrent(workers, log[..n], before, id);
      if a.SessionExits? && a.site == s {
        m := n;
      }
    }
  }

  /** A task that is running after a step other than its own start was running before it, on the same site. */
  lemma {:induction false} RanBefore(workers: seq<WorkerConfig>, w: World, a: Action, id: TaskId)
    requires Invariant(workers, w) && Enabled(workers, w, a)
    requires id in Next(w, a).tasks && Next(w, a).tasks[id].status == Running && !Starts(a, id)
    ensures id in w.tasks && w.tasks[id].status == Running && SiteOf(Next(w, a).tasks[id]) == SiteOf(w.tasks[id])
  {
    hide Fits, ValidOptions, CapacityInvariant, AllPlaced, SessionsInvariant, Editable, Claimable;
    if !RemoteOnly(a) {
      StepReplacesOneRow(workers, w, a);
      if a.id == id && !a.Create? {
        RowStepKeepsOwner(workers, w, a);
        hide NextRow;
      }
    }
  }

  /** Its exit file is as before the step, or this step wrote it. */
  lemma {:induction false} StillRunning(workers: seq<WorkerConfig>, w: World, a: Action, id: TaskId)
    requires Invariant(workers, w) && Enabled(workers, w, a)
    requires id in Next(w, a).tasks && Next(w, a).tasks[id].status == Running && !Starts(a, id)
    ensures id in w.tasks && w.tasks[id].status == Running && SiteOf(Next(w, a).tasks[id]) == SiteOf(w.tasks[id])
    ensures SiteOf(w.tasks[id]) in Next(w, a).exits ==>
              || a == SessionExits(SiteOf(w.tasks[id]), Next(w, a).exits[SiteOf(w.tasks[id])])
              || (SiteOf(w.tasks[id]) in w.exits
                 && Next(w, a).exits[SiteOf(w.tasks[id])] == w.exits[SiteOf(w.tasks[id])])
  {
    RanBefore(workers, w, a, id);
    hide Invariant, Enabled, NextRow, SiteOf;
  }

  /**
   * Whatever was killed, lost, paused, rerun or moved before: the exit code that finishes a task was
   * written by a session of the task's present run, after that run started and on that run's worker.
   */
  lemma {:induction false} FinishUsesOwnExitCode(workers: seq<WorkerConfig>, log: seq<Action>, k: nat)
    returns (j: nat, m: nat)
    requires ValidWorkers(workers)
    requires Legal(workers, EMPTY, log) && k < |log| && log[k].Finish?
    ensures j < m < k
    ensures log[k].id in At(log, k).tasks && log[k].id in At(log, k + 1).tasks
    ensures CurrentRun(log[..k], log[k].id, SiteOf(At(log, k).tasks[log[k].id]), j)
    ensures log[m].SessionExits? && log[m].site == Site(log[j].worker.name, log[k].id)
    ensures At(log, k + 1).tasks[log[k].id].exitCode == Some(log[m].code)
    ensures At(log, k + 1).tasks[log[k].id].status == if log[m].code == 0 then Succeeded else Failed
  {
    StepAt(workers, log, k);
    j, m := ExitFileIsCurrent(workers, log[..k], At(log, k), log[k].id);
  }

  // ----- when an exit code is on disk -----

  /** While a run lasts, its exit file stays once its session has written it. */
  lemma {:induction false} ExitFileStays(workers: seq<WorkerConfig>, log: seq<Action>, w: World, id: TaskId, j: nat,
                                         m: nat)
    requires ValidWorkers(workers)
    requires Run(workers, log, w)
    requires id in w.tasks && w.tasks[id].status == Running
    requires CurrentRun(log, id, SiteOf(w.tasks[id]), j)
    requires j < m < |log| && log[m].SessionExits? && log[m].site == SiteOf(w.tasks[id])
    ensures SiteOf(w.tasks[id]) in w.exits
  {
    hide Fits, ValidOptions, Editable, Claimable, CapacityKept, SessionsInvariant, ExitsInvariant, NextRow;
    var n := |log| - 1;
    if m < n {
      var before := After(EMPTY, log[..n]);
      EveryRunKeepsInvariant(workers, log[..n], before);
      StillRunning(workers, before, log[n], id);
      assert RowInvariant(before.tasks[id]);
      ExitFileStays(workers, log[..n], before, id, j, m);
    }
  }

  /** A running task's exit code is on disk exactly when a session of its present run has exited. */
  lemma {:induction false} ExitOnDiskExactly(workers: seq<WorkerConfig>, log: seq<Action>, w: World, id: TaskId)
    returns (j: nat)
    requires ValidWorkers(workers)
    requires Run(workers, log, w)
    requires id in w.tasks && w.tasks[id].status == Running
    ensures CurrentRun(log, id, SiteOf(w.tasks[id]), j)
    ensures SiteOf(w.tasks[id]) in w.exits <==>
            exists m :: j < m < |log| && log[m].SessionExits? && log[m].site == SiteOf(w.tasks[id])
  {
    var m;
    j, m := ExitFileIsCurrent(workers, log, w, id);
    if x :| j < x < |log| && log[x].SessionExits? && log[x].site == SiteOf(w.tasks[id]) {
      ExitFileStays(workers, log, w, id, j, x);
    }
  }

  // ----- when an exit code is left unread -----

  /** This step ends the task's run. */
  ghost predicate Ends(before: World, after: World, id: TaskId) {
    && id in before.tasks && before.tasks[id].status == Running
    && id in after.tasks && after.tasks[id].status != Running
  }

  /** The run's exit code is on disk, and the row did not take it. */
  ghost predicate LeftUnread(before: World, after: World, id: TaskId)
    requires Ends(before, after, id)
  {
    var s := SiteOf(before.tasks[id]);
    s in after.exits && after.tasks[id].exitCode != Some(after.exits[s])
  }

  /** A session of the run that began at `j` exited before step `k`. */
  ghost predicate ExitedSince(log: seq<Action>, s: Site, j: nat, k: nat)
    requires k <= |log|
  {
    exists m :: j < m < k && log[m].SessionExits? && log[m].site == s
  }

  /** Only a finish reads the file; no step that ends a run touches it. */
  lemma {:induction false} EndKeepsFile(workers: seq<WorkerConfig>, w: World, a: Action, id: TaskId)
    requires Invariant(workers, w) && Enabled(workers, w, a) && Ends(w, Next(w, a), id)
    ensures Next(w, a).exits == w.exits
    ensures a.Finish? ==> SiteOf(w.tasks[id]) in w.exits
    ensures Next(w, a).tasks[id].exitCode ==
            if a.Finish? then Some(w.exits[SiteOf(w.tasks[id])]) else None
  {
    hide Fits, ValidOptions, Editable, Claimable, CapacityKept, SessionsInvariant, ExitsInvariant;
    assert RowInvariant(w.tasks[id]);
  }

  /**
   * Whichever step ends a run: it leaves the run's exit code unread if and only if it is not the task's
   * finish and a session of the run has exited by then.
   */
  lemma {:induction false} EndLeavesUnreadExactly(workers: seq<WorkerConfig>, log: seq<Action>, k: nat, id: TaskId)
    returns (j: nat)
    requires ValidWorkers(workers)
    requires Legal(workers, EMPTY, log) && k < |log| && Ends(At(log, k), At(log, k + 1), id)
    ensures CurrentRun(log[..k], id, SiteOf(At(log, k).tasks[id]), j)
    ensures LeftUnread(At(log, k), At(log, k + 1), id) <==>
            !log[k].Finish? && ExitedSince(log, SiteOf(At(log, k).tasks[id]), j, k)
  {
    StepAt(workers, log, k);
    InvariantAt(workers, log, k);
    hide Invariant, Enabled, Next, Legal, After;
    EndKeepsFile(workers, At(log, k), log[k], id);
    j := ExitOnDiskExactly(workers, log[..k], At(log, k), id);
    var s := SiteOf(At(log, k).tasks[id]);
    if ExitedSince(log, s, j, k) {
      var m :| j < m < k && log[m].SessionExits? && log[m].site == s;
      assert log[..k][m] == log[m];
    }
  }

  /** While a run whose session is gone lasts, nobody revives the session or touches its exit file. */
  lemma {:induction false} GoneStaysGone(workers: seq<WorkerConfig>, w: World, a: Action, id: TaskId)
    requires Invariant(workers, w) && Enabled(workers, w, a) && !Starts(a, id)
    requires id in w.tasks && w.tasks[id].status == Running && SiteOf(w.tasks[id]) !in w.live
    ensures var s := SiteOf(w.tasks[id]);
            s !in Next(w, a).live && (s in Next(w, a).exits <==> s in w.exits)
  {
    hide Fits, ValidOptions, Editable, Claimable, CapacityKept, SessionsInvariant, ExitsInvariant, NextRow;
    assert RowInvariant(w.tasks[id]);
  }

  lemma {:induction false} KillKeepsFiles(w: World, id: TaskId)
    requires id in w.tasks
    ensures var after := Next(w, Kill(id));
            after.tasks == w.tasks && after.exits == w.exits && SiteOf(w.tasks[id]) !in after.live
  {
  }

  /** After a kill, the exit file of the run is there or not as it was at the kill. */
  lemma {:induction false} KillSettlesFile(workers: seq<WorkerConfig>, log: seq<Action>, i: nat, k: nat, id: TaskId)
    requires ValidWorkers(workers)
    requires Legal(workers, EMPTY, log) && i < k <= |log| && log[i] == Kill(id)
    requires forall n | i < n < k :: !Starts(log[n], id)
    requires id in At(log, k).tasks && At(log, k).tasks[id].status == Running
    ensures id in At(log, i).tasks && SiteOf(At(log, i).tasks[id]) == SiteOf(At(log, k).tasks[id])
    ensures SiteOf(At(log, k).tasks[id]) !in At(log, k).live
    ensures SiteOf(At(log, k).tasks[id]) in At(log, k).exits <==> SiteOf(At(log, k).tasks[id]) in At(log, i).exits
    decreases k
  {
    StepAt(workers, log, k - 1);
    InvariantAt(workers, log, k - 1);
    hide Invariant, Legal, After, Next, SiteOf;
    if i == k - 1 {
      KillKeepsFiles(At(log, i), id);
    } else {
      hide Enabled;
      StillRunning(workers, At(log, k - 1), log[k - 1], id);
      KillSettlesFile(workers, log, i, k - 1, id);
      GoneStaysGone(workers, At(log, k - 1), log[k - 1], id);
    }
  }

  /**
   * A killed task whose run is then ended, by preemption, pause, resize or cancellation: its exit code is
   * left unread if and only if the exit file was there at the kill.
   */
  lemma {:induction false} VictimLeavesUnreadExactly(workers: seq<WorkerConfig>, log: seq<Action>, i: nat, k: nat,
                                                     id: TaskId)
    requires ValidWorkers(workers)
    requires Legal(workers, EMPTY, log) && i < k < |log| && log[i] == Kill(id)
    requires forall n | i < n < k :: !Starts(log[n], id)
    requires Ends(At(log, k), At(log, k + 1), id) && !log[k].Finish?
    ensures id in At(log, i).tasks
    ensures LeftUnread(At(log, k), At(log, k + 1), id) <==> SiteOf(At(log, i).tasks[id]) in At(log, i).exits
  {
    StepAt(workers, log, k);
    InvariantAt(workers, log, k);
    hide Invariant, Enabled, Next, Legal, After;
    EndKeepsFile(workers, At(log, k), log[k], id);
    KillSettlesFile(workers, log, i, k, id);
  }

  // ----- non-preemptible work -----

  /**
   * A running task's options are frozen; if it is not preemptible it never goes back to the queue,
   * and only a scheduled stop pauses it.
   */
  lemma {:induction false} NonPreemptibleKeepsRunning(workers: seq<WorkerConfig>, log: seq<Action>, k: nat, id: TaskId)
    requires ValidWorkers(workers)
    requires Legal(workers, EMPTY, log) && k < |log|
    requires id in At(log, k).tasks && At(log, k).tasks[id].status == Running
    ensures id in At(log, k + 1).tasks && At(log, k + 1).tasks[id].options == At(log, k).tasks[id].options
    ensures !At(log, k).tasks[id].options.preemptible ==>
              && At(log, k + 1).tasks[id].status != Queued
              && (At(log, k + 1).tasks[id].status == Paused ==> log[k] == Pause(id, true))
  {
    hide Fits, ValidThresholds, ParsedSchedule, Claimable, CapacityKept, SessionsInvariant, ExitsInvariant, Legal,
      After;
    StepAt(workers, log, k);
    InvariantAt(workers, log, k);
    assert RowInvariant(At(log, k).tasks[id]);
  }

  // ----- who waits -----

  /** The steps that put a paused task in the queue. */
  ghost predicate Queues(a: Action, id: TaskId) {
    a == Unpause(id)
  }

  /** A task created paused is neither queued nor run before it is started by hand or by its schedule. */
  lemma {:induction false} CreatedPausedWaits(workers: seq<WorkerConfig>, log: seq<Action>, i: nat, k: nat, id: TaskId)
    requires ValidWorkers(workers)
    requires Legal(workers, EMPTY, log) && i < k <= |log|
    requires log[i].Create? && log[i].id == id && log[i].paused
    requires forall n | i < n < k :: !Queues(log[n], id)
    ensures id in At(log, k).tasks && At(log, k).tasks[id].status in {Paused, Canceled}
    decreases k
  {
    StepAt(workers, log, k - 1);
    hide Fits, ValidOptions, Claimable, Editable, Legal, After, SiteOf;
    if i < k - 1 {
      CreatedPausedWaits(workers, log, i, k - 1, id);
    }
  }

  /** A task created to run waits in the queue at once. */
  lemma {:induction false} CreatedQueuedWaits(workers: seq<WorkerConfig>, log: seq<Action>, i: nat)
    requires Legal(workers, EMPTY, log) && i < |log| && log[i].Create? && !log[i].paused
    ensures log[i].id in At(log, i + 1).tasks && At(log, i + 1).tasks[log[i].id].status == Queued
    ensures At(log, i + 1).tasks[log[i].id].options == log[i].options
  {
    StepAt(workers, log, i);
  }

  // ----- absorbing states -----

  lemma {:induction false} SuccessAndCancelStay(workers: seq<WorkerConfig>, log: seq<Action>, j: nat, k: nat,
                                                id: TaskId)
    requires Legal(workers, EMPTY, log) && j <= k <= |log|
    requires id in At(log, j).tasks && At(log, j).tasks[id].status in {Succeeded, Canceled}
    ensures id in At(log, k).tasks
    ensures At(log, k).tasks[id].status == At(log, j).tasks[id].status
    ensures At(log, k).tasks[id].exitCode == At(log, j).tasks[id].exitCode
    decreases k
  {
    hide Fits, ValidOptions, Legal, After;
    if j < k {
      SuccessAndCancelStay(workers, log, j, k - 1, id);
      StepAt(workers, log, k - 1);
    }
  }
}
