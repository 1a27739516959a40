/** The scheduler object of gpu_watcher/scheduler.py: every control, refresh and dispatch step it takes. */
module Dispatch {
  import opened Models
  import opened Lifecycle
  import opened Capacity
  import opened Queries
  import opened Occupancy
  import opened GpuConditions
  import opened GpuSelection
  import opened Placement
  import opened Victims
  import opened NumaPreemption
  import opened Elastic
  import opened Protocol
  import opened PassOrder
  import opened DispatchEffects
  import opened DispatchPass
  import opened ElasticPhases
  import opened PassTrace
  import opened Remote
  import opened Refresh
  import opened Schedules
  import opened Ticks
  import opened TaskStore
  import opened WorkerHealth
  import Triggers
  import Cron

  class Scheduler {
    const workers: seq<WorkerConfig>
    const daemon: DaemonConfig
    /** The wall clock of a time zone at a UTC minute. */
    const local: (string, int) -> Cron.Moment
    const store: Store
    const remote: RemoteExecutor
    const conditions: GpuConditionTable
    const health: HealthTable
    /** Every protocol action so far, by the scheduler and by the workers. */
    ghost var log: seq<Action>

    ghost function State(): World
      reads store, remote
    {
      World(store.tasks, remote.live, remote.exits)
    }

    /** What probing has left on record so far. */
    ghost function NotesNow(): Notes
      reads remote`looks, health`probes, conditions`history
    {
      Notes(remote.looks, health.probes, conditions.history)
    }

    /** The tables and the workers are in a state that a legal run from the empty table produces. */
    ghost predicate Valid()
      reads this, store, remote, conditions, health
    {
      && ValidWorkers(workers)
      && store.Valid() && conditions.Valid() && health.Valid()
      && Run(workers, log, State())
    }

    constructor (workers: seq<WorkerConfig>, daemon: DaemonConfig, local: (string, int) -> Cron.Moment)
      requires ValidWorkers(workers)
      ensures Valid() && store.tasks == map[] && log == []
      ensures this.workers == workers && this.daemon == daemon && this.local == local
      ensures NotesNow() == Notes([], [], map[]) && remote.requests == [] && remote.answers == []
      ensures fresh(store) && fresh(remote) && fresh(conditions) && fresh(health)
    {
      this.workers, this.daemon, this.local := workers, daemon, local;
      store := new Store();
      remote := new RemoteExecutor();
      conditions := new GpuConditionTable();
      health := new HealthTable(set w | w in workers :: w.name);
      log := [];
    }

    /** Every run keeps the invariant, so the present state has it. */
    lemma Facts()
      requires Valid()
      ensures Invariant(workers, State())
      ensures ValidWorkers(workers) && RowsInvariant(store.tasks) && KeyedById(store.tasks)
    {
      EveryRunKeepsInvariant(workers, log, State());
    }

    /** Whatever was done so far: no task has two live sessions, and no waiting or finished task has one. */
    lemma NoTaskRunsTwice()
      requires Valid()
      ensures forall s, t | s in remote.live && t in remote.live && s.task == t.task :: s == t
      ensures forall s | s in remote.live :: s.task in store.tasks && store.tasks[s.task].status in {Running, Canceled}
    {
      hide Run;
      Facts();
    }

    /** `_kill_task`: on success the task's session is gone. */
    method KillTask(task: Task) returns (ok: bool, ghost steps: seq<Action>)
      requires Valid()
      requires task.id in store.tasks && store.tasks[task.id] == task && task.status == Running
      modifies this`log, remote`live, remote`exits, remote`requests
      ensures Valid() && log == old(log) + steps
      ensures remote.live <= old(remote.live)
      ensures ok ==> SiteOf(task) !in remote.live && steps != [] && steps[|steps| - 1] == Kill(task.id)
      ensures remote.requests == old(remote.requests) + [KillRequest(SiteOf(task))]
      ensures Killed(steps) == (if ok then {task.id} else {}) && Started(steps) == {} && Ordered(steps)
    {
      hide Run, After, Legal, Killed, Started, Ordered, StateAfter, Batches, Consistent;
      Facts();
      ghost var before := State();
      ghost var drift: seq<Action>;
      ok, drift := remote.KillSession(task.session.value);
      OnlyDrift(workers, log, before, drift);
      steps := drift;
      if ok {
        KillStep(workers, log, before, drift, task.id);
        steps := drift + [Kill(task.id)];
      }
      log := log + steps;
    }

    /** `_preempt_task`: a killed running task goes back to the queue. */
    method PreemptTask(id: TaskId) returns (changed: bool, ghost steps: seq<Action>)
      requires Valid()
      requires id in store.tasks && store.tasks[id].status == Running
      requires store.tasks[id].options.background || store.tasks[id].options.preemptible
      requires SiteOf(store.tasks[id]) !in remote.live
      modifies this`log, store`tasks
      ensures Valid() && steps == [Preempt(id)] && log == old(log) + steps
      ensures changed && store.tasks == old(store.tasks)[id := Requeued(old(store.tasks)[id])]
      ensures Killed(steps) == {} && Started(steps) == {} && Ordered(steps)
    {
      hide Run, After, Legal, Killed, Started, Ordered, StateAfter, Batches, Consistent;
      RunExtends(workers, log, State(), Preempt(id));
      OneStep(Preempt(id));
      changed := store.RequeueTask(id);
      steps := [Preempt(id)];
      log := log + steps;
    }

    /**
     * `_start_with_requeue_on_failure`: a failed start leaves the task queued. Nothing else changes the row
     * in between, so `mark_running` finds it queued and there is no launched session to take back.
     */
    method StartWithRequeueOnFailure(task: Task, plan: DispatchPlan, now: nat)
      returns (started: bool, ghost steps: seq<Action>)
      requires Valid()
      requires task.id in store.tasks && store.tasks[task.id].status == Queued
      requires plan.worker in workers && Fits(plan.worker, store.tasks, store.tasks[task.id].options, plan.gpus)
      modifies this`log, store`tasks, remote`live, remote`exits, remote`requests
      ensures Valid() && log == old(log) + steps
      ensures store.tasks == if started
                             then old(store.tasks)[task.id := StartedRow(old(store.tasks)[task.id], plan, now)]
                             else old(store.tasks)
      ensures remote.requests == old(remote.requests) + [LaunchRequest(Site(plan.worker.name, task.id))]
      ensures Started(steps) == (if started then {task.id} else {}) && Killed(steps) == {} && Ordered(steps)
    {
      hide Run, After, Legal, Killed, Started, Ordered, StateAfter, Batches, Consistent, Invariant;
      Facts();
      assert store.tasks[task.id].id == task.id;
      ghost var before := State();
      ghost var drift: seq<Action>, cleared: bool;
      var session: Option<Site>;
      session, drift, cleared := remote.StartTask(plan.worker.name, task.id);
      OnlyDrift(workers, log, before, drift);
      steps := drift;
      started := session.Some?;
      if started {
        StartStep(workers, log, before, drift, Start(task.id, plan.worker, plan.gpus, now));
        steps := drift + [Start(task.id, plan.worker, plan.gpus, now)];
        var marked := store.MarkRunning(task.id, plan.worker.name, plan.gpus, session.value, now);
        assert marked;
      } else if cleared {
        ClearStep(workers, log, before, drift, ClearExit(task.id, plan.worker));
        steps := drift + [ClearExit(task.id, plan.worker)];
      }
      log := log + steps;
    }

    /**
     * Kill first; only a confirmed kill puts the victim back in the queue, at once. Nobody looks for an exit code
     * in between.
     */
    method PreemptVictim(victim: Task) returns (preempted: bool, ghost steps: seq<Action>)
      requires Valid()
      requires victim.id in store.tasks && store.tasks[victim.id] == victim && victim.status == Running
      requires victim.options.background || victim.options.preemptible
      modifies this`log, store`tasks, remote`live, remote`exits, remote`requests
      ensures Valid() && log == old(log) + steps
      ensures OnlyPreempts(old(store.tasks), store.tasks, steps)
      ensures Killed(steps) == if preempted then {victim.id} else {}
      ensures preempted ==> EndsWith(steps, Kill(victim.id), Preempt(victim.id))
      ensures remote.requests == old(remote.requests) + KillRequests([victim])
    {
      hide Run, After, Legal, Killed, Started, Ordered, StateAfter, Batches, Consistent;
      ghost var before := store.tasks;
      ReleasedTwice(before, {}, {});
      preempted, steps := KillTask(victim);
      if preempted {
        ghost var more: seq<Action>;
        preempted, more := PreemptTask(victim.id);
        Concatenated(steps, more);
        steps := steps + more;
        assert store.tasks == Released(before, {victim.id});
      }
    }

    /** The loop that every preemptor ends with: a victim whose kill fails stays where it is. */
    method PreemptVictims(victims: seq<Task>) returns (preempted: bool, ghost steps: seq<Action>)
      requires Valid()
      requires DistinctIds(victims)
      requires forall t | t in victims ::
                 t.id in store.tasks && store.tasks[t.id] == t && t.status == Running
                   && (t.options.background || t.options.preemptible)
      modifies this`log, store`tasks, remote`live, remote`exits, remote`requests
      ensures Valid() && log == old(log) + steps
      ensures OnlyPreempts(old(store.tasks), store.tasks, steps)
      ensures Killed(steps) <= IdsOf(victims)
      ensures preempted <==> Killed(steps) != {}
      ensures remote.requests == old(remote.requests) + KillRequests(victims)
    {
      hide Valid, Run, After, Legal, Killed, Started, Ordered, StateAfter, Batches, Consistent;
      ghost var before := store.tasks;
      preempted, steps := false, [];
      NothingPreempted(before, before, []);
      for i := 0 to |victims|
        invariant Valid() && log == old(log) + steps
        invariant OnlyPreempts(before, store.tasks, steps)
        invariant Killed(steps) <= IdsOf(victims[..i])
        invariant preempted <==> Killed(steps) != {}
        invariant remote.requests == old(remote.requests) + KillRequests(victims[..i])
      {
        IdsOfNext(victims, i);
        ghost var reached := store.tasks;
        var changed, more := PreemptVictim(victims[i]);
        PreemptsMore(before, reached, store.tasks, steps, more);
        preempted := preempted || changed;
        steps := steps + more;
      }
      assert victims[..|victims|] == victims;
    }

    // ----- probing -----

    ghost function CurrentView(now: int): View
      reads store, conditions
    {
      View(store.tasks, conditions.rows, daemon, now)
    }

    /** `_refresh_worker_state`: a worker that does not answer drops out of the pass. */
    method RefreshWorkerState(worker: WorkerConfig, states: WorkerStates, probed: seq<GpuCondition>, now: nat)
      returns (after: WorkerStates)
      requires Valid() && ValidStates(states)
      modifies conditions, health, remote`looks
      ensures Valid() && ValidStates(after)
      ensures SameElsewhere(after, states, worker.name)
      ensures NotesNow() == Noted(old(NotesNow()), probed, now, [LookAt(worker.name, after)])
    {
      hide Run, After, Legal, Batches, StateAfter, Consistent, AfterProbe, Noted;
      ghost var before := NotesNow();
      var answer := remote.ProbeGpus(worker.name);
      match answer {
        case None =>
          health.MarkUnreachable(worker.name);
          after := states - {worker.name};
        case Some(reported) =>
          health.MarkReachable(worker.name);
          conditions.Update(worker.name, reported, probed, now);
          after := states[worker.name := reported];
      }
      NotedOnce(before, probed, now, LookAt(worker.name, after));
    }

    /** `_probe_workers`. */
    method ProbeWorkers(probed: seq<GpuCondition>, now: nat) returns (states: WorkerStates)
      requires Valid()
      modifies conditions, health, remote`looks
      ensures Valid() && ValidStates(states) && OnlyEnabled(workers, states)
      ensures NotesNow() == Noted(old(NotesNow()), probed, now, Answers(workers, states))
    {
      hide Run, After, Legal, Batches, StateAfter, Consistent, Noted, Answers;
      ghost var n := NotesNow();
      NotedOnce(n, probed, now, LookAt("", map[]));
      NoAnswers(workers, map[]);
      states := map[];
      for i := 0 to |workers|
        invariant Valid() && ValidStates(states)
        invariant forall w | w in states :: exists k :: 0 <= k < i && workers[k].enabled && workers[k].name == w
        invariant NotesNow() == Noted(n, probed, now, Answers(workers[..i], states))
      {
        NextAnswer(workers, i, states);
        if workers[i].enabled {
          ghost var before := states;
          states := RefreshWorkerState(workers[i], states, probed, now);
          AnswersFrame(workers[..i], before, states);
          NextAnswer(workers, i, states);
          NotedTwice(n, probed, now, Answers(workers[..i], states), [LookAt(workers[i].name, states)]);
        }
      }
      assert workers[..|workers|] == workers;
    }

    // ----- preempting for a task -----

    /**
     * `_preempt_background_for_task` and `_preempt_for_task`: the first worker whose shortest sufficient set
     * of victims loses at least one of them.
     */
    method PreemptByCount(rule: Rule, o: TaskOptions, states: WorkerStates, now: nat)
      returns (freed: Option<WorkerConfig>, ghost i: nat, ghost victims: seq<Task>, ghost steps: seq<Action>)
      requires Valid() && KeyedById(store.tasks) && o.requestedGpus >= 1 && !rule.NumaRule?
      modifies this`log, store`tasks, remote`live, remote`exits, remote`requests
      ensures Valid() && log == old(log) + steps
      ensures OnlyPreempts(old(store.tasks), store.tasks, steps)
      ensures freed.None? ==>
                && Killed(steps) == {}
                && remote.requests == old(remote.requests)
                   + CountRequests(rule, old(CurrentView(now)), o, states, workers)
      ensures freed.Some? ==>
                && i < |workers| && workers[i] == freed.value && Killed(steps) != {} && Killed(steps) <= IdsOf(victims)
                && VictimsFor(rule, old(CurrentView(now)), o, states, freed.value, victims)
                && remote.requests == old(remote.requests)
                   + CountRequests(rule, old(CurrentView(now)), o, states, workers[..i + 1])
    {
      hide *;
      ghost var v, before := CurrentView(now), store.tasks;
      ViewOfTable(now);
      freed, i, victims, steps := None, 0, [], [];
      NothingPreempted(before, before, []);
      ghost var made: seq<Request> := [];
      NoRequests(rule, v, o, states, workers);
      for k := 0 to |workers|
        invariant Valid() && log == old(log) + steps
        invariant store.tasks == before && CurrentView(now) == v && OnlyPreempts(before, before, steps)
                  && Killed(steps) == {}
        invariant made == CountRequests(rule, v, o, states, workers[..k])
        invariant remote.requests == old(remote.requests) + made
      {
        var w := workers[k];
        NextWorkerRequests(rule, v, o, states, workers, k);
        if w.enabled && w.name in states && Targets(o, w) {
          var preempted, chosen, more := PreemptOn(rule, o, states, w, now);
          PreemptsMore(before, before, store.tasks, steps, more);
          NothingPreempted(before, store.tasks, more);
          ViewOfTable(now);
          steps := steps + more;
          if preempted {
            return Some(w), k, chosen, steps;
          }
        }
        made := CountRequests(rule, v, o, states, workers[..k + 1]);
      }
      assert workers[..|workers|] == workers;
    }

    /** What a decision looks at is the daemon's thresholds, the time, and what was observed so far. */
    lemma ViewIsSeen(now: nat)
      requires Valid()
      ensures SeenIn(CurrentView(now), Setting(workers, daemon, now), NotesNow())
    {
      hide Run, Consistent;
    }

    lemma ViewOfTable(now: nat)
      ensures CurrentView(now) == View(store.tasks, conditions.rows, daemon, now)
    {
    }

    /** What both do on one worker. */
    method PreemptOn(rule: Rule, o: TaskOptions, states: WorkerStates, w: WorkerConfig, now: nat)
      returns (preempted: bool, ghost victims: seq<Task>, ghost steps: seq<Action>)
      requires Valid() && KeyedById(store.tasks) && o.requestedGpus >= 1 && !rule.NumaRule?
      requires w in workers && w.enabled && w.name in states && Targets(o, w)
      modifies this`log, store`tasks, remote`live, remote`exits, remote`requests
      ensures Valid() && log == old(log) + steps
      ensures OnlyPreempts(old(store.tasks), store.tasks, steps)
      ensures preempted <==> Killed(steps) != {}
      ensures preempted ==>
                VictimsFor(rule, old(CurrentView(now)), o, states, w, victims) && Killed(steps) <= IdsOf(victims)
      ensures remote.requests == old(remote.requests)
              + KillRequests(VictimsOn(rule, old(CurrentView(now)), o, states, w))
    {
      hide Valid, Run, After, Legal, Killed, OnlyPreempts, VictimsFor;
      preempted, steps := false, [];
      NothingPreempted(store.tasks, store.tasks, []);
      var chosen, covered := ChooseVictims(rule, o, states, w, now);
      victims := chosen;
      if covered {
        VictimsOnIs(rule, CurrentView(now), o, states, w, chosen);
        preempted, steps := PreemptVictims(chosen);
      } else {
        NoVictimsOn(rule, CurrentView(now), o, states, w);
      }
    }

    /** One worker's candidates, and as many of them as cover both deficits. */
    method ChooseVictims(rule: Rule, o: TaskOptions, states: WorkerStates, w: WorkerConfig, now: nat)
      returns (victims: seq<Task>, covered: bool)
      requires Valid() && KeyedById(store.tasks) && o.requestedGpus >= 1 && !rule.NumaRule?
      requires w in workers && w.enabled && w.name in states && Targets(o, w)
      ensures covered ==> VictimsFor(rule, CurrentView(now), o, states, w, victims)
      ensures !covered ==> forall s :: !VictimsFor(rule, CurrentView(now), o, states, w, s)
      ensures DistinctIds(victims)
      ensures forall t | t in victims ::
                 t.id in store.tasks && store.tasks[t.id] == t && t.status == Running
                   && (t.options.background || t.options.preemptible)
    {
      hide Run, After, Legal, StateAfter, Batches, Consistent, Candidates, Available;
      Facts();
      var v := View(store.tasks, conditions.rows, daemon, now);
      var available := AvailableGpusByWorker(workers, v, o, states, None);
      assert Excluding(v, None) == v;
      var candidates, used := CandidatesOn(rule, o, store.tasks, w.name);
      var free := |available[w.name]|;
      victims, covered := TakeVictims(candidates, free, SlotsLeft(w, free, used), o.requestedGpus);
      VictimsAreCandidates(rule, o, store.tasks, w.name, victims);
      forall s | VictimsFor(rule, v, o, states, w, s)
        ensures s == victims
      {
        ShortestPrefixIsUnique(s, victims, candidates, free, SlotsLeft(w, free, used), o.requestedGpus);
      }
    }

    /** `_apply_numa_preemption`. */
    method ApplyNumaPreemption(o: TaskOptions, plan: NumaPreemptionPlan, ghost best: Proposal, states: WorkerStates,
                               now: nat)
      returns (preempted: bool, ghost steps: seq<Action>)
      requires Valid() && KeyedById(store.tasks)
      requires best.Valid() && Posed(workers, CurrentView(now), o, states, best.problem)
      requires plan == NumaPreemptionPlan(workers[best.problem.order], best.problem.node, VictimTasks(best.Victims()))
      modifies this`log, store`tasks, remote`live, remote`exits, remote`requests
      ensures Valid() && log == old(log) + steps
      ensures remote.requests == old(remote.requests) + KillRequests(plan.victims)
      ensures OnlyPreempts(old(store.tasks), store.tasks, steps)
      ensures Killed(steps) <= IdsOf(plan.victims)
      ensures preempted <==> Killed(steps) != {}
    {
      hide Run, After, Legal, Killed, StateAfter, Batches, Consistent, ProblemOn, OnlyPreempts;
      ProposalVictims(workers, CurrentView(now), o, states, best);
      preempted, steps := PreemptVictims(plan.victims);
    }

    /** `_find_plan` on the present tables. */
    method Plan(o: TaskOptions, states: WorkerStates, now: nat) returns (plan: Option<DispatchPlan>)
      requires Valid() && ValidStates(states) && o.requestedGpus >= 1
      ensures BestPlan(workers, CurrentView(now), o, states, plan)
      ensures plan.Some? ==> plan.value.worker in workers && Fits(plan.value.worker, store.tasks, o, plan.value.gpus)
    {
      hide Run, After, Legal, StateAfter, Batches, Consistent, Eligible, PlanChosen, Fits;
      Facts();
      plan := FindPlan(workers, View(store.tasks, conditions.rows, daemon, now), o, states);
    }

    /** `_find_numa_preemption_plan` on the present tables. */
    method NumaProposal(o: TaskOptions, states: WorkerStates, now: nat)
      returns (plan: Option<NumaPreemptionPlan>, ghost best: Option<Proposal>)
      requires Valid() && KeyedById(store.tasks)
      ensures plan.Some? <==> best.Some?
      ensures if WantsNode(o) then LeastProposal(best, workers, CurrentView(now), o, states) else plan.None?
      ensures plan.Some? ==>
                && best.value.Valid() && Posed(workers, CurrentView(now), o, states, best.value.problem)
                && best.value.problem.order < |workers|
                && plan.value == NumaPreemptionPlan(workers[best.value.problem.order], best.value.problem.node,
                   VictimTasks(best.value.Victims()))
    {
      hide Run, After, Legal, StateAfter, Batches, Consistent, Unbeaten;
      Facts();
      plan, best := FindNumaPreemptionPlan(workers, View(store.tasks, conditions.rows, daemon, now), o, states);
    }

    /** A plan that crosses NUMA nodes may be given up for a local one. */
    method SearchForNode(o: TaskOptions, first: DispatchPlan, states: WorkerStates, probed: seq<GpuCondition>, now: nat)
      returns (plan: Option<DispatchPlan>, refreshed: WorkerStates, ghost route: Route, ghost asked: seq<Request>,
        ghost steps: seq<Action>)
      requires Valid() && KeyedById(store.tasks) && ValidStates(states) && o.requestedGpus >= 1
      requires BestPlan(workers, CurrentView(now), o, states, Some(first)) && !PlanIsNumaLocal(o, first, states)
      modifies this`log, store`tasks, remote`live, remote`exits, remote`requests, remote`looks, conditions, health
      ensures Valid() && ValidStates(refreshed) && log == old(log) + steps
      ensures OnlyPreempts(old(store.tasks), store.tasks, steps)
      ensures Routed(Search(workers, o, old(CurrentView(now)), states, CurrentView(now), refreshed), route, plan,
              Killed(steps))
      ensures Asked(Search(workers, o, old(CurrentView(now)), states, CurrentView(now), refreshed), route, plan, asked)
      ensures NotesNow() == Noted(old(NotesNow()), probed, now,
              LooksOf(Search(workers, o, old(CurrentView(now)), states, CurrentView(now), refreshed), route))
      ensures remote.requests == old(remote.requests) + asked
    {
      hide Valid, Run, After, Legal, Killed, OnlyPreempts, BestPlan, LeastProposal, SameElsewhere, PlanIsNumaLocal,
        Posed, ValidStates, Noted;
      plan, refreshed, route, asked, steps := Some(first), states, Direct, [], [];
      NotedOnce(NotesNow(), probed, now, LookAt("", states));
      NothingPreempted(store.tasks, store.tasks, []);
      var proposal, best := NumaProposal(o, states, now);
      if proposal.Some? {
        var preempted;
        preempted, steps := ApplyNumaPreemption(o, proposal.value, best.value, states, now);
        asked := KillRequests(proposal.value.victims);
        NothingPreempted(old(store.tasks), store.tasks, steps);
        if preempted {
          refreshed := RefreshWorkerState(proposal.value.worker, states, probed, now);
          var again := Plan(o, refreshed, now);
          plan := OnlyLocal(o, again, refreshed);
          route := ForNode(best.value);
        }
      }
    }

    /** Background victims are tried first, then preemptible ones if the task may preempt. */
    method PreemptForTask(o: TaskOptions, states: WorkerStates, now: nat)
      returns (freed: Option<WorkerConfig>, ghost rule: Rule, ghost i: nat, ghost victims: seq<Task>,
        ghost asked: seq<Request>, ghost steps: seq<Action>)
      requires Valid() && KeyedById(store.tasks) && o.requestedGpus >= 1
      modifies this`log, store`tasks, remote`live, remote`exits, remote`requests
      ensures Valid() && log == old(log) + steps
      ensures OnlyPreempts(old(store.tasks), store.tasks, steps)
      ensures freed.None? ==>
                && Killed(steps) == {}
                && asked == CountRequests(BackgroundRule, old(CurrentView(now)), o, states, workers)
                   + if o.allowPreempt then CountRequests(RegularRule, old(CurrentView(now)), o, states, workers)
                     else []
      ensures freed.Some? ==>
                && i < |workers| && workers[i] == freed.value && Killed(steps) != {} && Killed(steps) <= IdsOf(victims)
                && !rule.NumaRule? && (rule.RegularRule? ==> o.allowPreempt)
                && VictimsFor(rule, old(CurrentView(now)), o, states, freed.value, victims)
                && asked == if rule.RegularRule?
                            then CountRequests(BackgroundRule, old(CurrentView(now)), o, states, workers)
                                 + CountRequests(RegularRule, old(CurrentView(now)), o, states, workers[..i + 1])
                            else CountRequests(BackgroundRule, old(CurrentView(now)), o, states, workers[..i + 1])
      ensures remote.requests == old(remote.requests) + asked
    {
      hide *;
      ghost var v := CurrentView(now);
      ViewOfTable(now);
      rule := BackgroundRule;
      freed, i, victims, steps := PreemptByCount(BackgroundRule, o, states, now);
      NothingPreempted(old(store.tasks), store.tasks, steps);
      asked := CountRequests(BackgroundRule, v, o, states, if freed.None? then workers else workers[..i + 1]);
      if freed.None? && o.allowPreempt {
        rule := RegularRule;
        ghost var more, first := [], steps;
        ViewOfTable(now);
        freed, i, victims, more := PreemptByCount(RegularRule, o, states, now);
        PreemptsMore(old(store.tasks), old(store.tasks), store.tasks, first, more);
        NothingPreempted(old(store.tasks), store.tasks, more);
        asked := asked + CountRequests(RegularRule, v, o, states, if freed.None? then workers else workers[..i + 1]);
        steps := first + more;
      }
    }

    /** Without a plan, victims are counted; the worker that lost some is probed again. */
    method SearchByCount(o: TaskOptions, states: WorkerStates, probed: seq<GpuCondition>, now: nat)
      returns (plan: Option<DispatchPlan>, refreshed: WorkerStates, ghost route: Route, ghost asked: seq<Request>,
        ghost steps: seq<Action>)
      requires Valid() && KeyedById(store.tasks) && ValidStates(states) && o.requestedGpus >= 1
      requires BestPlan(workers, CurrentView(now), o, states, None)
      modifies this`log, store`tasks, remote`live, remote`exits, remote`requests, remote`looks, conditions, health
      ensures Valid() && ValidStates(refreshed) && log == old(log) + steps
      ensures OnlyPreempts(old(store.tasks), store.tasks, steps)
      ensures Routed(Search(workers, o, old(CurrentView(now)), states, CurrentView(now), refreshed), route, plan,
              Killed(steps))
      ensures Asked(Search(workers, o, old(CurrentView(now)), states, CurrentView(now), refreshed), route, plan, asked)
      ensures NotesNow() == Noted(old(NotesNow()), probed, now,
              LooksOf(Search(workers, o, old(CurrentView(now)), states, CurrentView(now), refreshed), route))
      ensures remote.requests == old(remote.requests) + asked
    {
      hide Valid, Run, After, Legal, Killed, OnlyPreempts, BestPlan, VictimsFor, SameElsewhere, CountRequests,
        ValidStates, Noted, NotesNow, KeyedById;
      plan, refreshed, route := None, states, Direct;
      NotedOnce(NotesNow(), probed, now, LookAt("", states));
      var freed;
      ghost var rule, i, victims;
      freed, rule, i, victims, asked, steps := PreemptForTask(o, states, now);
      NothingPreempted(old(store.tasks), store.tasks, steps);
      if freed.Some? {
        refreshed := RefreshWorkerState(freed.value, states, probed, now);
        plan := Plan(o, refreshed, now);
        route := ByCount(rule, freed.value, victims);
      }
    }

    /** Where the task should start, preempting for it if need be. */
    method SearchPlan(o: TaskOptions, states: WorkerStates, probed: seq<GpuCondition>, now: nat)
      returns (plan: Option<DispatchPlan>, refreshed: WorkerStates, ghost route: Route, ghost asked: seq<Request>,
        ghost steps: seq<Action>)
      requires Valid() && KeyedById(store.tasks) && ValidStates(states) && o.requestedGpus >= 1
      modifies this`log, store`tasks, remote`live, remote`exits, remote`requests, remote`looks, conditions, health
      ensures Valid() && ValidStates(refreshed) && log == old(log) + steps
      ensures OnlyPreempts(old(store.tasks), store.tasks, steps)
      ensures Routed(Search(workers, o, old(CurrentView(now)), states, CurrentView(now), refreshed), route, plan,
              Killed(steps))
      ensures Asked(Search(workers, o, old(CurrentView(now)), states, CurrentView(now), refreshed), route, plan, asked)
      ensures NotesNow() == Noted(old(NotesNow()), probed, now,
              LooksOf(Search(workers, o, old(CurrentView(now)), states, CurrentView(now), refreshed), route))
      ensures remote.requests == old(remote.requests) + asked
    {
      hide Valid, Run, After, Legal, Killed, OnlyPreempts, BestPlan, NodeRoute, CountRoute, SameElsewhere,
        PlanIsNumaLocal,
        CountRequests, NodeRequests, ValidStates, Noted;
      NotedOnce(NotesNow(), probed, now, LookAt("", states));
      plan := Plan(o, states, now);
      if plan.None? {
        plan, refreshed, route, asked, steps := SearchByCount(o, states, probed, now);
      } else if !PlanIsNumaLocal(o, plan.value, states) {
        plan, refreshed, route, asked, steps := SearchForNode(o, plan.value, states, probed, now);
      } else {
        refreshed, route, asked, steps := states, Direct, [], [];
        NothingPreempted(store.tasks, store.tasks, []);
      }
    }

    /** One turn of the regular loop. */
    method AttemptRegular(id: TaskId, states: WorkerStates, probed: seq<GpuCondition>, now: nat)
      returns (refreshed: WorkerStates, started: bool, ghost attempt: Attempt, ghost steps: seq<Action>)
      requires Valid() && KeyedById(store.tasks) && ValidStates(states)
      requires id in store.tasks && store.tasks[id].status == Queued && store.tasks[id].options.requestedGpus >= 1
      modifies this`log, store`tasks, remote`live, remote`exits, remote`requests, remote`looks, conditions, health
      ensures Valid() && ValidStates(refreshed) && log == old(log) + steps
      ensures AttemptEffect(old(store.tasks), store.tasks, id, steps)
      ensures AttemptMade(attempt, store.tasks, now)
      ensures attempt.id == id && attempt.killed == Killed(steps) && attempt.started == started
      ensures attempt.search.workers == workers && attempt.search.states == states
              && attempt.search.refreshed == refreshed
      ensures attempt.search.before == old(CurrentView(now)) && attempt.search.before.tasks == old(store.tasks)
      ensures remote.requests == old(remote.requests) + attempt.requests
      ensures NotesNow() == Noted(old(NotesNow()), probed, now, LooksOf(attempt.search, attempt.route))
      ensures SeenIn(attempt.search.before, Setting(workers, daemon, now), old(NotesNow()))
      ensures SeenIn(attempt.search.now, Setting(workers, daemon, now), NotesNow())
    {
      hide Valid, Run, After, Legal, Killed, Started, Ordered, OnlyPreempts, Routed, Asked, AttemptEffect, PlanChosen,
        Eligible, Fits, Noted, LooksOf, SeenIn;
      ViewIsSeen(now);
      ghost var before := store.tasks;
      var o := store.tasks[id].options;
      var plan;
      ghost var route, asked;
      plan, refreshed, route, asked, steps := SearchPlan(o, states, probed, now);
      ghost var search := Search(workers, o, old(CurrentView(now)), states, CurrentView(now), refreshed);
      ViewIsSeen(now);
      RoutedEffect(search, route, plan, id, steps);
      ghost var killed := Killed(steps);
      started := false;
      if plan.Some? {
        ghost var between := store.tasks;
        RoutedPlanFits(search, route, plan.value, steps);
        ghost var more;
        started, more := StartWithRequeueOnFailure(store.tasks[id], plan.value, now);
        StartEffect(before, between, store.tasks, id, store.tasks[id], steps, more);
        steps := steps + more;
      }
      attempt := Attempt(id, search, route, plan, killed, started, asked + Launch(plan, id));
    }

    // ----- the regular phase of a pass -----

    /** Every row's request is positive, as its options were validated. */
    lemma RequestsPositive(id: TaskId)
      requires Valid() && id in store.tasks
      ensures store.tasks[id].options.requestedGpus >= 1
    {
      hide Run;
      Facts();
      assert RowInvariant(store.tasks[id]);
    }

    /**
     * The loop over regular tasks. The queue is read again for every attempt, so victims of earlier attempts
     * are seen; they have lower priority than what was attempted before.
     */
    method DispatchRegular(states: WorkerStates, probed: seq<GpuCondition>, now: nat)
      returns (refreshed: WorkerStates, ghost trace: seq<Attempt>, ghost steps: seq<Action>)
      requires Valid() && KeyedById(store.tasks) && ValidStates(states)
      modifies this`log, store`tasks, remote`live, remote`exits, remote`requests, remote`looks, conditions, health
      ensures Valid() && ValidStates(refreshed) && log == old(log) + steps
      ensures RegularPhase(old(store.tasks), store.tasks, AttemptIds(trace), steps)
      ensures Attempts(Setting(workers, daemon, now), old(NotesNow()), probed, states, old(store.tasks), trace,
              store.tasks)
      ensures refreshed == LatestStates(states, trace)
      ensures ReachedExactly(store.tasks, Elements(AttemptIds(trace)))
      ensures remote.requests == old(remote.requests) + AttemptRequests(trace)
      ensures NotesNow() == Noted(old(NotesNow()), probed, now, AttemptLooks(trace))
    {
      hide *;
      ghost var start, s, n := store.tasks, Setting(workers, daemon, now), NotesNow();
      refreshed, trace, steps := states, [], [];
      var attempted: set<TaskId> := {};
      RegularPhaseStarts(start);
      NoAttempts(s, n, probed, states, start);
      ElementsAppend(AttemptIds(trace), 0);
      PhaseMeans(start, store.tasks, AttemptIds(trace), steps);
      while true
        invariant Valid() && ValidStates(refreshed) && log == old(log) + steps
        invariant KeyedById(store.tasks) && attempted == Elements(AttemptIds(trace))
        invariant RegularPhase(start, store.tasks, AttemptIds(trace), steps)
        invariant Attempts(s, n, probed, states, start, trace, store.tasks)
        invariant refreshed == LatestStates(states, trace)
        invariant NotesNow() == Noted(n, probed, now, AttemptLooks(trace))
        invariant remote.requests == old(remote.requests) + AttemptRequests(trace)
        invariant attempted <= start.Keys == store.tasks.Keys
        decreases start.Keys - attempted
      {
        var next := NextRegular(store.tasks, attempted);
        if next.None? {
          AttemptedExactly(start, store.tasks, AttemptIds(trace), steps);
          break;
        }
        ghost var before := store.tasks;
        NextIsWaiting(before, attempted, next.value);
        RequestsPositive(next.value);
        var started;
        ghost var attempt, more;
        refreshed, started, attempt, more := AttemptRegular(next.value, refreshed, probed, now);
        AttemptKeepsPhase(start, before, store.tasks, AttemptIds(trace), next.value, steps, more);
        AttemptsContinue(s, n, probed, states, start, trace, attempt, store.tasks);
        ElementsAppend(AttemptIds(trace), next.value);
        steps := steps + more;
        trace := trace + [attempt];
        attempted := attempted + {next.value};
        PhaseMeans(start, store.tasks, AttemptIds(trace), steps);
      }
    }

    // ----- the elastic phase -----

    /** What one resize step of an elastic task decides, when its worker is enabled and reported GPUs. */
    method DecideResize(task: Task, states: WorkerStates, now: nat) returns (w: Option<WorkerConfig>, d: Resize)
      requires Valid() && KeyedById(store.tasks) && ValidStates(states)
      requires task.id in store.tasks && store.tasks[task.id] == task && IsElastic(task)
      ensures w.Some? <==> Resizable(workers, states, task)
      ensures w.Some? ==>
                && w == WorkerNamed(workers, task.worker.value) && RunsOn(task, w.value.name)
                && SituationOf(CurrentView(now), w.value, states, task).Valid()
                && Decision(SituationOf(CurrentView(now), w.value, states, task), d)
      ensures w.None? ==> d.Keep?
    {
      hide Run, After, Legal, StateAfter, Batches, Consistent, Decision, Available, CapacityInvariant;
      Facts();
      assert RowInvariant(task);
      w, d := WorkerNamed(workers, task.worker.value), Keep;
      if w.None? || !w.value.enabled || StatesOf(states, w.value.name) == [] {
        return None, Keep;
      }
      var v := View(store.tasks, conditions.rows, daemon, now);
      var available := AvailableGpusByWorker(workers, v, task.options, states, Some(task.id));
      var others := OtherSlots(store.tasks, w.value.name, task.id);
      RunningFits(workers, store.tasks, task);
      DedupeDistinct(task.gpus);
      SituationIsValid(v, w.value, states, task);
      d := Decide(Situation(task.options, w.value, Dedupe(task.gpus), StatesOf(states, w.value.name),
        available[w.value.name], others));
    }

    /** One turn of `_resize_elastic_background_tasks`. */
    method ResizeOne(task: Task, states: WorkerStates, now: nat) returns (ghost r: Resizing, ghost steps: seq<Action>)
      requires Valid() && KeyedById(store.tasks) && ValidStates(states)
      requires task.id in store.tasks && store.tasks[task.id] == task && IsElastic(task)
      modifies this`log, store`tasks, remote`live, remote`exits, remote`requests
      ensures Valid() && log == old(log) + steps
      ensures r.id == task.id && r.before == old(CurrentView(now)) && r.before.tasks == old(store.tasks)
      ensures SeenIn(r.before, Setting(workers, daemon, now), NotesNow())
      ensures ResizeMade(r, workers, states, store.tasks, now)
      ensures Killed(steps) == if r.killed then {task.id} else {}
      ensures Started(steps) == if r.started then {task.id} else {}
      ensures remote.requests == old(remote.requests) + ResizeRequests(r)
      ensures ResizeEffect(old(store.tasks), store.tasks, task, steps)
    {
      hide Valid, Run, After, Legal, Killed, Started, Ordered, OnlyPreempts, Decision, SituationOf, Resizable, Fits,
        SeenIn, NotesNow, EndsWith, ResizeEffect, RunsOn, WithinLimits, KeyedById, ValidStates;
      ViewIsSeen(now);
      ghost var v, before := CurrentView(now), store.tasks;
      var w, d := DecideResize(task, states, now);
      r, steps := Resizing(task.id, v, w, d, false, false), [];
      NothingPreempted(before, before, []);
      NoSteps();
      UntouchedEffect(before, task);
      if d.Keep? {
        return;
      }
      LimitsOf(w.value);
      var killed;
      killed, steps := PreemptVictim(task);
      r := r.(killed := killed);
      PreemptedEffect(before, store.tasks, task, steps);
      if killed && d.Restart? {
        RestartFits(v, w.value, states, task, d);
        ghost var between, more := store.tasks, [];
        var started;
        started, more := StartWithRequeueOnFailure(store.tasks[task.id], DispatchPlan(w.value, d.gpus), now);
        r := r.(started := started);
        RestartedEffect(before, between, store.tasks, task, steps, more);
        steps := steps + more;
      }
    }

    lemma LimitsOf(w: WorkerConfig)
      requires Valid() && w in workers
      ensures WithinLimits(w, store.tasks)
    {
      hide Run;
      Facts();
    }

    /** `_resize_elastic_background_tasks`, over the rows that were running when it began. */
    method ResizeElasticTasks(states: WorkerStates, now: nat)
      returns (ghost running: seq<Task>, ghost trace: seq<Resizing>, ghost done: set<TaskId>, ghost steps: seq<Action>)
      requires Valid() && KeyedById(store.tasks) && ValidStates(states)
      modifies this`log, store`tasks, remote`live, remote`exits, remote`requests
      ensures Valid() && log == old(log) + steps
      ensures SortedBy(StartedKey, running) && Lists(running, old(store.tasks), WithStatus(old(store.tasks), Running))
      ensures Resizes(Setting(workers, daemon, now), NotesNow(), states, old(store.tasks), running, trace, store.tasks)
      ensures remote.requests == old(remote.requests) + ResizesRequests(trace)
      ensures ElasticPhase(old(store.tasks), store.tasks, done, steps)
    {
      hide *;
      ghost var start, s, n := store.tasks, Setting(workers, daemon, now), NotesNow();
      var rows := RunningTasks(store.tasks);
      running, trace, done, steps := rows, [], {}, [];
      ElasticPhaseStarts(start);
      NothingListed(rows);
      WalksBegin(s, n, states, start, rows);
      for i := 0 to |rows|
        invariant Valid() && log == old(log) + steps
        invariant ElasticPhase(start, store.tasks, done, steps)
        invariant KeyedById(start) && done <= IdsOf(rows[..i])
        invariant Resizes(s, n, states, start, rows[..i], trace, store.tasks)
        invariant remote.requests == old(remote.requests) + ResizesRequests(trace)
      {
        NextIsUntouched(start, store.tasks, rows, i, done, steps);
        if IsElastic(rows[i]) {
          ghost var before, r, more := store.tasks, *, [];
          r, more := ResizeOne(rows[i], states, now);
          ResizeKeepsPhase(start, before, store.tasks, rows[i], done, steps, more);
          ResizesContinue(s, n, states, start, rows, i, trace, r, store.tasks);
          steps, trace := steps + more, trace + [r];
          done := done + {rows[i].id};
        } else {
          ResizesSkip(s, n, states, start, rows, i, trace, store.tasks);
        }
      }
    }

    // ----- the background phase -----

    /** One queued background task: its best plan, unless a regular task of higher priority could use the worker. */
    method StartBackground(task: Task, states: WorkerStates, now: nat)
      returns (ghost offer: Offer, ghost steps: seq<Action>)
      requires Valid() && KeyedById(store.tasks) && ValidStates(states)
      requires task.id in store.tasks && store.tasks[task.id] == task && task.status == Queued
               && task.options.background
      requires InWindow(store.tasks, task)
      modifies this`log, store`tasks, remote`live, remote`exits, remote`requests
      ensures Valid() && log == old(log) + steps
      ensures offer.id == task.id && offer.before == old(CurrentView(now)) && offer.before.tasks == old(store.tasks)
      ensures SeenIn(offer.before, Setting(workers, daemon, now), NotesNow())
      ensures OfferMade(offer, workers, states, store.tasks, now)
      ensures remote.requests == old(remote.requests) + OfferRequests(offer)
      ensures Started(steps) == (if offer.started then {task.id} else {}) && Killed(steps) == {} && Ordered(steps)
    {
      hide Valid, Run, After, Legal, Killed, Started, Ordered, BestPlan, Blocks, InWindow, Fits, StartedRow, KeyedById,
        SeenIn;
      ViewIsSeen(now);
      RequestsPositive(task.id);
      var plan := Plan(task.options, states, now);
      offer, steps := Offer(task.id, CurrentView(now), plan, false, false), [];
      NoSteps();
      if plan.Some? {
        var pending := HasPendingRegular(store.tasks, plan.value.worker, task);
        if pending {
          offer := offer.(held := true);
        } else {
          var started;
          started, steps := StartWithRequeueOnFailure(task, plan.value, now);
          offer := offer.(started := started);
        }
      }
    }

    /** The background tasks that were queued when the phase began, in queue order. */
    method DispatchBackground(states: WorkerStates, now: nat, ghost start: TaskTable, ghost attempts: seq<TaskId>,
                              ghost earlier: seq<Action>)
      returns (ghost listed: seq<Task>, ghost trace: seq<Offer>, ghost steps: seq<Action>)
      requires Valid() && KeyedById(store.tasks) && ValidStates(states)
      requires WholePass(start, store.tasks, attempts, earlier)
      modifies this`log, store`tasks, remote`live, remote`exits, remote`requests
      ensures Valid() && log == old(log) + steps
      ensures QueueWindow(old(store.tasks), listed)
      ensures Offers(Setting(workers, daemon, now), NotesNow(), states, old(store.tasks), listed, trace, store.tasks)
      ensures remote.requests == old(remote.requests) + OffersRequests(trace)
      ensures WholePass(start, store.tasks, attempts, earlier + steps)
      ensures Killed(steps) == {}
    {
      hide *;
      var queued := QueuedTasks(store.tasks);
      listed, trace, steps := queued, [], [];
      ghost var walk := Walk(Setting(workers, daemon, now), NotesNow(), states, start, attempts, earlier, store.tasks,
        queued);
      WalkBegins(walk);
      for i := 0 to |queued|
        invariant Valid() && log == old(log) + steps
        invariant Walked(walk, i, trace, store.tasks, steps)
        invariant remote.requests == old(remote.requests) + OffersRequests(trace)
      {
        WalkNext(walk, i, trace, store.tasks, steps);
        if queued[i].options.background {
          ghost var before := store.tasks;
          ghost var offer, more := StartBackground(queued[i], states, now);
          WalkGoesOn(walk, i, trace, offer, before, store.tasks, steps, more);
          steps, trace := steps + more, trace + [offer];
        } else {
          WalkSkips(walk, i, trace, store.tasks, steps);
        }
      }
      WalkEnds(walk, trace, store.tasks, steps);
    }

    /** `_dispatch_queued_tasks`: probe, regular attempts, elastic resizes, background starts. */
    method DispatchQueuedTasks(now: nat) returns (ghost pass: PassRecord, ghost steps: seq<Action>)
      requires Valid()
      modifies this`log, store`tasks, remote`live, remote`exits, remote`requests, remote`looks, conditions, health
      ensures Valid() && log == old(log) + steps
      ensures Dispatched(Setting(workers, daemon, now), old(NotesNow()), old(store.tasks), store.tasks, pass, steps)
      ensures remote.requests == old(remote.requests) + PassRequests(pass)
      ensures NotesNow() == NotesOf(Setting(workers, daemon, now), old(NotesNow()), pass)
    {
      hide *;
      Facts();
      ghost var start, s, n := store.tasks, Setting(workers, daemon, now), NotesNow();
      var queued := QueuedTasks(store.tasks);
      EmptyWindow(store.tasks, queued);
      var running := RunningTasks(store.tasks);
      var probed := ConditionsForTasks(daemon, queued + ElasticOnly(running));
      var states := ProbeWorkers(probed, now);
      ghost var before, first, attempts := states, NotesNow(), [];
      steps := [];
      RegularPhaseStarts(start);
      NoAttempts(s, first, probed, states, start);
      if queued != [] {
        states, attempts, steps := DispatchRegular(states, probed, now);
      }
      ghost var attempted := store.tasks;
      PhaseMeans(start, attempted, AttemptIds(attempts), steps);
      ghost var listed, resizes, done, more := ResizeElasticTasks(states, now);
      PhasesJoin(start, attempted, store.tasks, AttemptIds(attempts), done, steps, more);
      steps := steps + more;
      ghost var resized, window, offers := store.tasks, [], [];
      NoOffers();
      if queued != [] {
        PassKeepsIds(start, resized, AttemptIds(attempts), steps);
        window, offers, more := DispatchBackground(states, now, start, AttemptIds(attempts), steps);
        steps := steps + more;
      }
      pass := PassRecord(queued, running, probed, before, attempts, states, attempted, listed, resizes, resized, window,
        offers);
      NotesJoin(s, n, pass);
      ProbedMeans(s, start, pass);
      PassIsMade(s, n, start, pass, store.tasks, steps);
      ghost var a, r, o := AttemptRequests(attempts), ResizesRequests(resizes), OffersRequests(offers);
      assert old(remote.requests) + a + r + o == old(remote.requests) + (a + r + o);
    }

    // ----- refreshing running tasks -----

    method ProbeExitCode(task: Task) returns (code: Result<Option<int>>, ghost steps: seq<Action>)
      requires Valid() && OwnSite(task)
      modifies this`log, remote`live, remote`exits, remote`answers
      ensures Valid() && log == old(log) + steps
      ensures Drift(old(State()), steps) && State() == Meanwhile(old(State()), steps)
      ensures code.Ok? ==> code.value == if SiteOf(task) in remote.exits then Some(remote.exits[SiteOf(task)]) else None
      ensures remote.answers == old(remote.answers) + [ExitAnswer(SiteOf(task), code, remote.exits)]
      ensures remote.requests == old(remote.requests)
    {
      hide Run, After, Legal, StateAfter, Batches, Consistent;
      ghost var before := State();
      code, steps := remote.ReadExitCode(Site(task.worker.value, task.id));
      OnlyDrift(workers, log, before, steps);
      log := log + steps;
    }

    method ProbeSession(task: Task) returns (present: Result<bool>, ghost steps: seq<Action>)
      requires Valid()
      modifies this`log, remote`live, remote`exits, remote`answers
      ensures Valid() && log == old(log) + steps
      ensures Drift(old(State()), steps) && State() == Meanwhile(old(State()), steps)
      ensures present.Ok? ==> (present.value <==> SiteOf(task) in remote.live)
      ensures remote.answers == old(remote.answers) + [SessionAnswer(SiteOf(task), present, remote.live)]
      ensures remote.requests == old(remote.requests)
    {
      hide Run, After, Legal, StateAfter, Batches, Consistent;
      ghost var before := State();
      present, steps := remote.SessionExists(SiteOf(task));
      OnlyDrift(workers, log, before, steps);
      log := log + steps;
    }

    /** `finish_task`, on the strength of the exit file just read. */
    method FinishWith(task: Task, code: int, now: nat) returns (ghost steps: seq<Action>)
      requires Valid()
      requires task.id in store.tasks && store.tasks[task.id] == task && task.status == Running
      requires SiteOf(task) in remote.exits && remote.exits[SiteOf(task)] == code
      modifies this`log, store`tasks
      ensures Valid() && steps == [Finish(task.id, now)] && log == old(log) + steps
      ensures store.tasks == old(store.tasks)[task.id := Finished(task, code, now)]
    {
      hide Run, After, Legal, StateAfter, Batches, Consistent;
      RunExtends(workers, log, State(), Finish(task.id, now));
      store.FinishTask(task.id, code, now);
      steps := [Finish(task.id, now)];
      log := log + steps;
    }

    /** `_requeue_or_fail_lost_task`: retry preemptible work, fail the rest. */
    method RequeueOrFailLost(task: Task, now: nat) returns (ghost steps: seq<Action>)
      requires Valid()
      requires task.id in store.tasks && store.tasks[task.id] == task && task.status == Running
      requires SiteOf(task) !in remote.live
      modifies this`log, store`tasks
      ensures Valid() && steps == [Lose(task.id, now)] && log == old(log) + steps
      ensures store.tasks == old(store.tasks)[task.id := Reconciled(task, Missing, now)]
    {
      hide Run, After, Legal, StateAfter, Batches, Consistent;
      RunExtends(workers, log, State(), Lose(task.id, now));
      if task.options.preemptible {
        var changed := store.RequeueTask(task.id);
      } else {
        store.FailTask(task.id, now);
      }
      steps := [Lose(task.id, now)];
      log := log + steps;
    }

    /** Without an exit code the session decides: no answer, still there, or gone. */
    method RefreshWithoutCode(task: Task, now: nat, ghost before: World, ghost first: seq<Action>)
      returns (finding: Finding, ghost turn: Turn)
      requires Valid()
      requires task.id in store.tasks && store.tasks[task.id] == task && task.status == Running && task.worker.Some?
      requires task.id in before.tasks && before.tasks[task.id] == task
      requires Drift(before, first) && State() == Meanwhile(before, first) && SiteOf(task) !in remote.exits
      modifies this`log, store`tasks, remote`live, remote`exits, remote`answers, health
      ensures Valid()
      ensures TurnMade(turn, task) && turn.before == before && turn.first == first && turn.finding == finding
      ensures State() == AfterTurn(turn, task, now)
      ensures log == old(log) + (turn.second + Closing(turn, now))
      ensures remote.answers == old(remote.answers) + turn.answers[1..] && turn.answers != []
      ensures turn.answers[0] == ExitAnswer(SiteOf(task), Ok(None), old(remote.exits))
      ensures turn.probes[0] == Probe(task.worker.value, true) && health.probes == old(health.probes) + turn.probes[1..]
      ensures remote.requests == old(remote.requests)
    {
      hide Run, After, Legal, StateAfter, Batches, Consistent, ValidWorkers, Drift, Drifted;
      ghost var answer := ExitAnswer(SiteOf(task), Ok(None), remote.exits);
      ghost var reachable := Probe(task.worker.value, true);
      var present;
      ghost var second;
      present, second := ProbeSession(task);
      ghost var answers := [answer, SessionAnswer(SiteOf(task), present, remote.live)];
      assert answers[1..] == [SessionAnswer(SiteOf(task), present, remote.live)];
      if present.Err? {
        finding := NoAnswer;
        health.MarkUnreachable(task.worker.value);
        turn := Turn(before, task.id, NoAnswer, first, second, answers, [reachable, Probe(task.worker.value, false)]);
        assert answers[1] == SessionAnswer(SiteOf(task), Err(present.error), remote.live);
      } else if present.value {
        finding := Alive;
        turn := Turn(before, task.id, Alive, first, second, answers, [reachable]);
      } else {
        finding := Missing;
        ghost var more := RequeueOrFailLost(task, now);
        turn := Turn(before, task.id, Missing, first, second, answers, [reachable]);
      }
    }

    /** First the exit code: only if the worker answers that there is none does the session matter. */
    method RefreshTask(task: Task, now: nat) returns (finding: Finding, ghost turn: Turn)
      requires Valid() && OwnSite(task)
      requires task.id in store.tasks && store.tasks[task.id] == task && task.status == Running
      modifies this`log, store`tasks, remote`live, remote`exits, remote`answers, health
      ensures Valid()
      ensures TurnMade(turn, task) && turn.before == old(State()) && turn.finding == finding
      ensures State() == AfterTurn(turn, task, now)
      ensures log == old(log) + TurnSteps(turn, now)
      ensures remote.answers == old(remote.answers) + turn.answers
      ensures health.probes == old(health.probes) + turn.probes
      ensures remote.requests == old(remote.requests)
    {
      hide Run, After, Legal, StateAfter, Batches, Consistent, ValidWorkers, Drift, Drifted;
      ghost var before := State();
      var code;
      ghost var first;
      code, first := ProbeExitCode(task);
      NoDrift(State());
      var w := task.worker.value;
      ghost var answer := ExitAnswer(SiteOf(task), code, remote.exits);
      if code.Err? {
        health.MarkUnreachable(w);
        finding := NoAnswer;
        turn := Turn(before, task.id, NoAnswer, first, [], [answer], [Probe(w, false)]);
        assert answer == ExitAnswer(SiteOf(task), Err(code.error), remote.exits);
        return;
      }
      health.MarkReachable(w);
      if code.value.Some? {
        finding := Exited(code.value.value);
        ghost var more := FinishWith(task, code.value.value, now);
        turn := Turn(before, task.id, finding, first, [], [answer], [Probe(w, true)]);
      } else {
        finding, turn := RefreshWithoutCode(task, now, before, first);
      }
    }

    /** `refresh_running_tasks`: a worker that fails to answer is left alone for the rest of the round. */
    method RefreshRunningTasks(now: nat) returns (ghost listed: seq<Task>, ghost trace: seq<Turn>)
      requires Valid()
      modifies this`log, store`tasks, remote`live, remote`exits, remote`answers, health
      ensures Valid() && log == old(log) + RoundSteps(trace, now)
      ensures SortedBy(StartedKey, listed) && Lists(listed, old(store.tasks), WithStatus(old(store.tasks), Running))
      ensures Reconciles(workers, old(State()), listed, trace, State(), now)
      ensures remote.answers == old(remote.answers) + RoundAnswers(trace)
      ensures health.probes == old(health.probes) + RoundProbes(trace) && StopsAtFailure(RoundProbes(trace))
      ensures Refreshed(old(store.tasks), store.tasks, RoundSteps(trace, now), RoundProbes(trace), now)
      ensures Killed(RoundSteps(trace, now)) == {} && Started(RoundSteps(trace, now)) == {}
      ensures remote.requests == old(remote.requests)
    {
      hide *;
      Facts();
      ghost var start, begun := store.tasks, State();
      var running := RunningTasks(store.tasks);
      ListingBegins(store.tasks, running, WithStatus(store.tasks, Running));
      RunningRows(store.tasks, running);
      var unreachable: set<WorkerName> := {};
      listed, trace := running, [];
      NoSteps();
      RefreshBegins(start, now);
      ReconcilesBegins(workers, begun, running, now);
      for i := 0 to |running|
        invariant Valid() && log == old(log) + RoundSteps(trace, now) && remote.requests == old(remote.requests)
        invariant StillListed(store.tasks, running, i) && forall k | 0 <= k < |running| :: RunningRow(start, running[k])
        invariant Reconciles(workers, begun, running[..i], trace, State(), now)
        invariant Refreshed(start, store.tasks, RoundSteps(trace, now), RoundProbes(trace), now)
        invariant remote.answers == old(remote.answers) + RoundAnswers(trace)
        invariant health.probes == old(health.probes) + RoundProbes(trace)
        invariant StopsAtFailure(RoundProbes(trace)) && FailedWorkers(RoundProbes(trace), unreachable)
        invariant Killed(RoundSteps(trace, now)) == {} && Started(RoundSteps(trace, now)) == {}
      {
        var task := running[i];
        ListedNext(store.tasks, running, i);
        RunningRowMeans(start, task);
        var w := task.worker.value;
        InspectsExactly(workers, task, RoundProbes(trace), unreachable);
        if WorkerNamed(workers, w).None? || w in unreachable {
          ReconcilesSkip(workers, begun, running, i, trace, State(), now);
        } else {
          ghost var before := store.tasks;
          StateOfTables();
          var finding;
          ghost var turn;
          finding, turn := RefreshTask(task, now);
          StateOfTables();
          RoundGoesOn(start, turn, task, RoundSteps(trace, now), RoundProbes(trace), unreachable, now);
          ReconcilesNext(workers, begun, running, i, trace, turn, now);
          ListedAfter(before, store.tasks, running, i);
          trace := trace + [turn];
          if finding.NoAnswer? {
            unreachable := unreachable + {w};
          }
        }
      }
    }

    lemma StateOfTables()
      ensures State() == World(store.tasks, remote.live, remote.exits)
      ensures NotesNow() == Notes(remote.looks, health.probes, conditions.history)
    {
    }

    // ----- manual controls -----

    /** `create_task`: accepted exactly when the options are, and stored in normal form. */
    method CreateTask(options: TaskOptions, paused: bool, now: nat) returns (r: Result<TaskId>)
      requires Valid()
      modifies this`log, store
      ensures Valid()
      ensures SchedulesKept(old(store.tasks), store.tasks, {})
      ensures r.Ok? <==> Normalize(options).Ok?
      ensures r.Ok? ==> r.value !in old(store.tasks)
      ensures log == old(log) + if r.Ok? then [Create(r.value, Normalize(options).value, paused, now)] else []
      ensures store.tasks == if r.Ok?
              then old(store.tasks)[r.value := NewRow(r.value, Normalize(options).value, paused, now)]
                else old(store.tasks)
    {
      hide Run, After, Legal, StateAfter, Batches, Consistent, ValidOptions, Normalize;
      ghost var before := State();
      r := store.CreateTask(options, paused, now);
      NothingDisturbed(before.tasks, {});
      if r.Ok? {
        NormalizedOptionsAreStable(options);
        OneRowKeeps(before.tasks, NewRow(r.value, Normalize(options).value, paused, now), r.value, {});
        RunExtends(workers, log, before, Create(r.value, Normalize(options).value, paused, now));
        log := log + [Create(r.value, Normalize(options).value, paused, now)];
      }
    }

    /** `update_task`: with valid options it succeeds exactly on paused and queued tasks. */
    method UpdateTask(id: TaskId, options: TaskOptions) returns (r: Result<bool>)
      requires Valid()
      modifies this`log, store`tasks
      ensures Valid()
      ensures SchedulesKept(old(store.tasks), store.tasks, {id})
      ensures r.Ok? <==> Normalize(options).Ok?
      ensures r.Ok? ==> (r.value <==> id in old(store.tasks) && old(store.tasks)[id].status in {Paused, Queued})
      ensures log == old(log) + if r == Ok(true) then [Edit(id, Normalize(options).value)] else []
      ensures store.tasks == if r == Ok(true)
              then old(store.tasks)[id := Edited(old(store.tasks)[id], Normalize(options).value)] else old(store.tasks)
    {
      hide Run, After, Legal, StateAfter, Batches, Consistent, ValidOptions, Normalize, Editable, Invariant;
      Facts();
      RowEditable(id);
      ghost var before := State();
      NothingDisturbed(before.tasks, {id});
      r := store.UpdateTask(id, options);
      if r == Ok(true) {
        OneRowKeeps(before.tasks, store.tasks[id], id, {id});
        NormalizedOptionsAreStable(options);
        RunExtends(workers, log, before, Edit(id, Normalize(options).value));
        log := log + [Edit(id, Normalize(options).value)];
      }
    }

    lemma RowEditable(id: TaskId)
      requires Valid()
      ensures id in store.tasks ==> (Editable(store.tasks[id]) <==> store.tasks[id].status in {Paused, Queued})
    {
      hide Run;
      Facts();
      if id in store.tasks {
        assert RowInvariant(store.tasks[id]);
        EditableExactly(store.tasks[id]);
      }
    }

    /** The row change of `start_task` and `_scheduled_start`: a paused task joins the queue, a queued one stays. */
    method Unpause(id: TaskId) returns (changed: bool, ghost steps: seq<Action>)
      requires Valid()
      modifies this`log, store`tasks
      ensures Valid() && log == old(log) + steps
      ensures steps == UnpauseSteps(old(store.tasks), id)
      ensures changed <==> id in old(store.tasks) && old(store.tasks)[id].status in {Paused, Queued}
      ensures Killed(steps) == {} && Started(steps) == {}
      ensures store.tasks == AfterUnpause(old(store.tasks), id)
    {
      hide Run, After, Legal, StateAfter, Batches, Consistent, Killed, Started, Ordered;
      steps := [];
      NoSteps();
      changed := id in store.tasks && store.tasks[id].status in {Paused, Queued};
      if id in store.tasks && store.tasks[id].status == Paused {
        RunExtends(workers, log, State(), Action.Unpause(id));
        OneStep(Action.Unpause(id));
        steps := [Action.Unpause(id)];
        changed := store.StartTask(id);
        log := log + steps;
      }
      assert old(log) + [] == old(log);
    }

    /** `start_task`: a paused or queued task starts a dispatch pass. */
    method StartTask(id: TaskId, now: nat) returns (changed: bool, ghost pass: PassRecord, ghost steps: seq<Action>)
      requires Valid()
      modifies this`log, store`tasks, remote`live, remote`exits, remote`requests, remote`looks, conditions, health
      ensures Valid()
      ensures SchedulesKept(old(store.tasks), store.tasks, {})
      ensures changed <==> id in old(store.tasks) && old(store.tasks)[id].status in {Paused, Queued}
      ensures !changed ==> store.tasks == old(store.tasks) && log == old(log) && NotesNow() == old(NotesNow())
                           && remote.requests == old(remote.requests)
      ensures changed ==>
                && Dispatched(Setting(workers, daemon, now), old(NotesNow()), AfterUnpause(old(store.tasks), id),
                   store.tasks, pass, steps)
                && log == old(log) + UnpauseSteps(old(store.tasks), id) + steps
                && remote.requests == old(remote.requests) + PassRequests(pass)
                && NotesNow() == NotesOf(Setting(workers, daemon, now), old(NotesNow()), pass)
    {
      hide *;
      ghost var before := store.tasks;
      NothingDisturbed(before, {});
      changed, steps := Unpause(id);
      UnpauseKeeps(before, id);
      pass := NO_PASS;
      if changed {
        ghost var queued, n := store.tasks, NotesNow();
        pass, steps := DispatchQueuedTasks(now);
        PassKeepsSchedules(Setting(workers, daemon, now), n, queued, store.tasks, pass, steps);
        SchedulesKeptTwice(before, queued, store.tasks, {}, {});
      }
    }

    /** `rerun_task`: only a failed task, which then starts a dispatch pass. */
    method RerunTask(id: TaskId, now: nat) returns (changed: bool, ghost pass: PassRecord, ghost steps: seq<Action>)
      requires Valid()
      modifies this`log, store`tasks, remote`live, remote`exits, remote`requests, remote`looks, conditions, health
      ensures Valid()
      ensures SchedulesKept(old(store.tasks), store.tasks, {})
      ensures changed <==> id in old(store.tasks) && old(store.tasks)[id].status == Failed
      ensures !changed ==> store.tasks == old(store.tasks) && log == old(log) && NotesNow() == old(NotesNow())
                           && remote.requests == old(remote.requests)
      ensures changed ==>
                && Dispatched(Setting(workers, daemon, now), old(NotesNow()),
                   old(store.tasks)[id := Rerun(old(store.tasks)[id])], store.tasks, pass, steps)
                && log == old(log) + [RerunFailed(id)] + steps
                && remote.requests == old(remote.requests) + PassRequests(pass)
                && NotesNow() == NotesOf(Setting(workers, daemon, now), old(NotesNow()), pass)
    {
      hide Run, After, Legal, StateAfter, Batches, Consistent, Dispatched, ValidWorkers, SchedulesKept, NotesOf;
      ghost var before, n := store.tasks, NotesNow();
      NothingDisturbed(before, {});
      pass, steps := NO_PASS, [];
      changed := id in store.tasks && store.tasks[id].status == Failed;
      if changed {
        RunExtends(workers, log, State(), RerunFailed(id));
        changed := store.RerunTask(id);
        log := log + [RerunFailed(id)];
        OneRowKeeps(before, store.tasks[id], id, {});
        ghost var queued := store.tasks;
        pass, steps := DispatchQueuedTasks(now);
        PassKeepsSchedules(Setting(workers, daemon, now), n, queued, store.tasks, pass, steps);
        SchedulesKeptTwice(before, queued, store.tasks, {}, {});
      }
    }

    /** The update of `pause_task`, once the task has no live session. */
    method PauseRow(id: TaskId, scheduled: bool) returns (ghost steps: seq<Action>)
      requires Valid()
      requires id in store.tasks && store.tasks[id].status in {Queued, Running}
      requires scheduled || store.tasks[id].options.preemptible
      requires store.tasks[id].status == Running ==> SiteOf(store.tasks[id]) !in remote.live
      modifies this`log, store`tasks
      ensures Valid() && steps == [Pause(id, scheduled)] && log == old(log) + steps
      ensures store.tasks == old(store.tasks)[id := PausedRow(old(store.tasks)[id])]
      ensures Killed(steps) == {} && Started(steps) == {} && Ordered(steps)
    {
      hide Run, After, Legal, StateAfter, Batches, Consistent, Killed, Started, Ordered;
      RunExtends(workers, log, State(), Pause(id, scheduled));
      OneStep(Pause(id, scheduled));
      steps := [Pause(id, scheduled)];
      var changed := store.PauseTask(id, !scheduled);
      log := log + steps;
    }

    /**
     * `pause_task`, and with `scheduled` the pause of `_scheduled_stop`, which does not ask whether the task is
     * preemptible. A running task is paused only after its session was killed.
     */
    method PauseTask(id: TaskId, scheduled: bool) returns (changed: bool, ghost steps: seq<Action>)
      requires Valid() && KeyedById(store.tasks)
      modifies this`log, store`tasks, remote`live, remote`exits, remote`requests
      ensures Valid() && log == old(log) + steps
      ensures SchedulesKept(old(store.tasks), store.tasks, {})
      ensures changed ==> Stoppable(old(store.tasks), id, scheduled)
      ensures store.tasks == if changed then old(store.tasks)[id := PausedRow(old(store.tasks)[id])]
              else old(store.tasks)
      ensures Stoppable(old(store.tasks), id, scheduled) && old(store.tasks)[id].status == Queued ==> changed
      ensures Stoppable(old(store.tasks), id, scheduled) && old(store.tasks)[id].status == Running ==>
                && remote.requests == old(remote.requests) + [KillRequest(SiteOf(old(store.tasks)[id]))]
                && (changed <==> Killed(steps) == {id})
                && (changed ==> EndsWith(steps, Kill(id), Pause(id, scheduled)))
      ensures !Stoppable(old(store.tasks), id, scheduled) || old(store.tasks)[id].status == Queued ==>
                remote.requests == old(remote.requests) && Killed(steps) == {}
      ensures Killed(steps) <= {id} && Started(steps) == {} && Ordered(steps)
    {
      hide Valid, Run, After, Legal, StateAfter, Batches, Consistent, Killed, Started, Ordered;
      ghost var before := store.tasks;
      NothingDisturbed(before, {});
      changed, steps := false, [];
      NoSteps();
      if !Stoppable(store.tasks, id, scheduled) {
        return;
      }
      if store.tasks[id].status == Running {
        changed, steps := KillTask(store.tasks[id]);
        if !changed {
          return;
        }
      }
      ghost var more := PauseRow(id, scheduled);
      OneRowKeeps(before, store.tasks[id], id, {});
      changed := true;
      Concatenated(steps, more);
      steps := steps + more;
    }

    /** `cancel_task`: a failed kill does not stop it. */
    method CancelTask(id: TaskId, now: nat) returns (changed: bool, ghost steps: seq<Action>)
      requires Valid() && KeyedById(store.tasks)
      modifies this`log, store`tasks, remote`live, remote`exits, remote`requests
      ensures Valid() && log == old(log) + steps
      ensures SchedulesKept(old(store.tasks), store.tasks, {})
      ensures changed <==> id in old(store.tasks) && !old(store.tasks)[id].status.Terminal()
      ensures store.tasks == if changed then old(store.tasks)[id := CanceledRow(old(store.tasks)[id], now)]
              else old(store.tasks)
      ensures remote.requests == old(remote.requests) +
                if changed && old(store.tasks)[id].status == Running then [KillRequest(SiteOf(old(store.tasks)[id]))]
                  else []
    {
      hide Run, After, Legal, StateAfter, Batches, Consistent, Killed, Started, Ordered, ValidWorkers;
      ghost var before := store.tasks;
      NothingDisturbed(before, {});
      changed, steps := false, [];
      if id in store.tasks && store.tasks[id].status == Running {
        var killed;
        killed, steps := KillTask(store.tasks[id]);
      }
      if id in store.tasks && !store.tasks[id].status.Terminal() {
        RunExtends(workers, log, State(), Cancel(id, now));
        log := log + [Cancel(id, now)];
        steps := steps + [Cancel(id, now)];
        changed := store.CancelTask(id, now);
        OneRowKeeps(before, store.tasks[id], id, {});
      }
    }

    // ----- schedules and the tick -----

    method ClaimTrigger(task: Task, trigger: Trigger, minute: int) returns (claimed: bool, ghost steps: seq<Action>)
      requires Valid()
      requires task.id in store.tasks && store.tasks[task.id] == task
      modifies this`log, store`tasks
      ensures Valid() && log == old(log) + steps
      ensures claimed <==> Claimable(task, trigger, minute)
      ensures store.tasks == if claimed then old(store.tasks)[task.id := Claimed(task, trigger, minute)]
              else old(store.tasks)
      ensures Killed(steps) == {} && Started(steps) == {}
    {
      hide Run, After, Legal, StateAfter, Batches, Consistent, Claimable, Killed, Started, Ordered;
      steps := [];
      NoSteps();
      ghost var before := State();
      claimed := store.ClaimScheduleTrigger(task.id, trigger, minute);
      if claimed {
        RunExtends(workers, log, before, Claim(task.id, trigger, minute));
        OneStep(Claim(task.id, trigger, minute));
        steps := [Claim(task.id, trigger, minute)];
        log := log + steps;
      }
    }

    /** One scheduled task at one tick: a due stop shuts out the start, whether or not it is claimed. */
    method ApplySchedule(task: Task, minute: int) returns (ghost steps: seq<Action>)
      requires Valid() && KeyedById(store.tasks)
      requires task.id in store.tasks && store.tasks[task.id] == task
      modifies this`log, store`tasks, remote`live, remote`exits, remote`requests
      ensures Valid() && log == old(log) + steps
      ensures Killed(steps) <= {task.id} && Started(steps) == {}
      ensures store.tasks ==
              old(store.tasks)[task.id := Scheduled(task, local(task.options.timezone, minute), minute,
                task.id in Killed(steps))]
      ensures remote.requests == old(remote.requests)
              + ScheduleRequests(task, local(task.options.timezone, minute), minute)
    {
      hide Valid, Run, After, Legal, StateAfter, Batches, Consistent, Killed, Started, Ordered, IsDue, EndsWith,
        NotesNow, SchedulesKept;
      var m := local(task.options.timezone, minute);
      var claimed;
      ghost var more := [];
      steps := [];
      NoSteps();
      if IsDue(task.options.stopCron, m) {
        claimed, steps := ClaimTrigger(task, StopTrigger, minute);
        if claimed {
          var paused;
          paused, more := PauseTask(task.id, true);
        }
      } else if IsDue(task.options.startCron, m) {
        claimed, steps := ClaimTrigger(task, StartTrigger, minute);
        if claimed {
          var queued;
          queued, more := Unpause(task.id);
        }
      }
      Concatenated(steps, more);
      steps := steps + more;
    }

    /** `_apply_schedules`. */
    method ApplySchedules(minute: int) returns (ghost listed: seq<Task>, ghost steps: seq<Action>)
      requires Valid()
      modifies this`log, store`tasks, remote`live, remote`exits, remote`requests
      ensures Valid() && log == old(log) + steps
      ensures SortedBy(CreatedKey, listed) && Lists(listed, old(store.tasks), Matching(old(store.tasks), IsScheduled))
      ensures SchedulesApplied(old(store.tasks), store.tasks, local, minute, Killed(steps))
      ensures remote.requests == old(remote.requests) + AllRequests(listed, local, minute)
    {
      hide *;
      Facts();
      ghost var start := store.tasks;
      var scheduled := ScheduledTasks(store.tasks);
      ListingBegins(start, scheduled, Matching(start, IsScheduled));
      ApplyingBegins(start, local, minute, scheduled);
      listed, steps := scheduled, [];
      NoSteps();
      for i := 0 to |scheduled|
        invariant Valid() && log == old(log) + steps
        invariant StillListed(start, scheduled, 0) && StillListed(store.tasks, scheduled, i)
        invariant AppliedSoFar(start, store.tasks, local, minute, Killed(steps), scheduled, i)
        invariant remote.requests == old(remote.requests) + AllRequests(scheduled[..i], local, minute)
      {
        ghost var before := store.tasks;
        ListedNext(before, scheduled, i);
        ghost var more := ApplySchedule(scheduled[i], minute);
        ApplyingContinues(start, before, store.tasks, local, minute, Killed(steps), scheduled, i, Killed(more));
        RequestsContinue(scheduled, i, local, minute);
        ScheduledRecordsClaim(scheduled[i], local(scheduled[i].options.timezone, minute), minute,
          scheduled[i].id in Killed(more));
        ListedAfter(before, store.tasks, scheduled, i);
        Concatenated(steps, more);
        steps := steps + more;
      }
      ApplyingEnds(start, store.tasks, local, minute, Killed(steps), scheduled);
    }

    /** `tick`: schedules, then refresh, then dispatch. */
    method Tick(minute: int, now: nat) returns (ghost record: TickRecord)
      requires Valid()
      modifies this`log, store`tasks, remote, conditions, health
      ensures Valid() && log == old(log) + TickSteps(record, now)
      ensures TickMade(Setting(workers, daemon, now), old(NotesNow()), local, minute, old(State()), record, State())
      ensures remote.requests == old(remote.requests) + TickRequests(record, local, minute)
      ensures remote.answers == old(remote.answers) + RoundAnswers(record.turns)
      ensures NotesNow() == TickNotes(Setting(workers, daemon, now), old(NotesNow()), record)
      ensures TriggersAdvanced(old(store.tasks), store.tasks, local, minute)
    {
      hide *;
      ghost var s, n := Setting(workers, daemon, now), NotesNow();
      StateOfTables();
      ghost var listed, controls := ApplySchedules(minute);
      StateOfTables();
      ghost var scheduled := State();
      ghost var running, turns := RefreshRunningTasks(now);
      StateOfTables();
      RoundNotesAre(n, turns);
      ghost var refreshed := State();
      ghost var pass, dispatching := DispatchQueuedTasks(now);
      StateOfTables();
      record := TickRecord(listed, controls, scheduled, running, turns, refreshed, pass, dispatching);
      TickIsMade(s, n, local, minute, old(State()), record, State());
      ghost var a, p := AllRequests(listed, local, minute), PassRequests(pass);
      assert old(remote.requests) + a + p == old(remote.requests) + (a + p);
      ghost var r := RoundSteps(turns, now);
      assert old(log) + controls + r + dispatching == old(log) + (controls + r + dispatching);
    }
  }
}
