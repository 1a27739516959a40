/** What the parts of one dispatch pass promise each other, as predicates on task tables. */
module DispatchEffects {
  import opened Models
  import opened Lifecycle
  import opened Capacity
  import opened Queries
  import opened GpuConditions
  import opened GpuSelection
  import opened Placement
  import opened Victims
  import opened NumaPreemption
  import opened Protocol
  import opened PassOrder
  import opened Remote
  import opened WorkerHealth

  // ----- probing -----

  /** `_conditions_for_tasks` keeps the default condition and one condition per distinct threshold set. */
  ghost predicate ConditionsFor(daemon: DaemonConfig, tasks: seq<Task>, conditions: seq<GpuCondition>) {
    && Distinct(conditions)
    && (forall t | t in tasks :: ConditionFor(daemon, t.options) in conditions)
    && (forall c | c in conditions ::
          c == DefaultCondition(daemon) || exists t :: t in tasks && ConditionFor(daemon, t.options) == c)
  }

  function DefaultCondition(daemon: DaemonConfig): GpuCondition {
    GpuCondition(daemon.freeMemoryMb, daemon.freeUtilizationPercent, None)
  }

  /** The default condition is that of a task that sets no threshold. */
  lemma DefaultIsUnset(daemon: DaemonConfig, o: TaskOptions)
    requires o.maxMemoryUsedMb.None? && o.maxUtilizationPercent.None? && o.minFreeMemoryMb.None?
    ensures ConditionFor(daemon, o) == DefaultCondition(daemon)
  {
  }

  method ConditionsForTasks(daemon: DaemonConfig, tasks: seq<Task>) returns (conditions: seq<GpuCondition>)
    ensures ConditionsFor(daemon, tasks, conditions) && DefaultCondition(daemon) in conditions
  {
    conditions := [DefaultCondition(daemon)];
    for i := 0 to |tasks|
      invariant ConditionsFor(daemon, tasks[..i], conditions) && DefaultCondition(daemon) in conditions
    {
      assert tasks[..i + 1] == tasks[..i] + [tasks[i]];
      var condition := ConditionFor(daemon, tasks[i].options);
      if condition !in conditions {
        conditions := conditions + [condition];
      }
    }
    assert tasks[..|tasks|] == tasks;
  }

  ghost predicate SameElsewhere(a: WorkerStates, b: WorkerStates, w: WorkerName) {
    forall x | x != w :: (x in a <==> x in b) && (x in a ==> a[x] == b[x])
  }

  /** What a probe of the worker reported, if these are the states it left. */
  ghost function LookAt(w: WorkerName, states: WorkerStates): Look {
    Look(w, if w in states then Some(states[w]) else None)
  }

  /** One probe of each enabled worker, in configuration order. */
  ghost function Answers(workers: seq<WorkerConfig>, states: WorkerStates): seq<Look> {
    if workers == [] then []
    else
      var w := workers[|workers| - 1];
      Answers(workers[..|workers| - 1], states) + if w.enabled then [LookAt(w.name, states)] else []
  }

  lemma {:induction false} NoAnswers(workers: seq<WorkerConfig>, states: WorkerStates)
    ensures Answers(workers[..0], states) == []
  {
  }

  lemma {:induction false} NextAnswer(workers: seq<WorkerConfig>, i: nat, states: WorkerStates)
    requires i < |workers|
    ensures Answers(workers[..i + 1], states) ==
            Answers(workers[..i], states) + if workers[i].enabled then [LookAt(workers[i].name, states)] else []
    ensures !workers[i].enabled ==> Answers(workers[..i + 1], states) == Answers(workers[..i], states)
  {
    assert workers[..i + 1][..i] == workers[..i];
  }

  /** Another worker's states do not matter. */
  lemma {:induction false} AnswersFrame(workers: seq<WorkerConfig>, a: WorkerStates, b: WorkerStates)
    requires forall i | 0 <= i < |workers| ::
               (workers[i].name in a <==> workers[i].name in b)
                 && (workers[i].name in a ==> a[workers[i].name] == b[workers[i].name])
    ensures Answers(workers, a) == Answers(workers, b)
  {
    if workers != [] {
      AnswersFrame(workers[..|workers| - 1], a, b);
    }
  }

  ghost predicate OnlyEnabled(workers: seq<WorkerConfig>, states: WorkerStates) {
    forall w | w in states :: exists i :: 0 <= i < |workers| && workers[i].enabled && workers[i].name == w
  }

  // ----- what probing leaves on record -----

  /** The probes made, the outcomes recorded of the workers, and the observations recorded of their GPUs. */
  datatype Notes = Notes(looks: seq<Look>, probes: seq<Probe>, history: History)

  /** A probe that is not answered records an outage and no observation. */
  ghost function Noted(n: Notes, probed: seq<GpuCondition>, at: nat, looks: seq<Look>): Notes {
    if looks == [] then n
    else
      var l, before := looks[|looks| - 1], Noted(n, probed, at, looks[..|looks| - 1]);
      Notes(before.looks + [l], before.probes + [Probe(l.worker, l.states.Some?)],
            if l.states.Some? then AfterProbe(before.history, l.worker, l.states.value, probed, at)
            else before.history)
  }

  lemma {:induction false} NotedTwice(n: Notes, probed: seq<GpuCondition>, at: nat, a: seq<Look>, b: seq<Look>)
    ensures Noted(n, probed, at, a + b) == Noted(Noted(n, probed, at, a), probed, at, b)
  {
    if b == [] {
      assert a + b == a;
    } else {
      assert (a + b)[..|a + b| - 1] == a + b[..|b| - 1];
      NotedTwice(n, probed, at, a, b[..|b| - 1]);
    }
  }

  lemma {:induction false} NotedOnce(n: Notes, probed: seq<GpuCondition>, at: nat, l: Look)
    ensures Noted(n, probed, at, []) == n
    ensures Noted(n, probed, at, [l]) ==
            Notes(n.looks + [l], n.probes + [Probe(l.worker, l.states.Some?)],
                  if l.states.Some? then AfterProbe(n.history, l.worker, l.states.value, probed, at) else n.history)
  {
    assert [l][..0] == [];
  }

  /** What stays the same throughout a pass. */
  datatype Setting = Setting(workers: seq<WorkerConfig>, daemon: DaemonConfig, at: nat)

  /** The view has the pass's thresholds and time, and its condition rows are what was observed so far. */
  ghost predicate SeenIn(v: View, s: Setting, n: Notes) {
    v.daemon == s.daemon && v.now == s.at && Consistent(v.conditions, n.history)
  }

  // ----- preemption -----

  /** One kill request per victim, in order. */
  ghost function KillRequests(victims: seq<Task>): (r: seq<Request>)
    ensures |r| == |victims| && forall i | 0 <= i < |r| :: r[i] == KillRequest(SiteOf(victims[i]))
  {
    seq(|victims|, i requires 0 <= i < |victims| => KillRequest(SiteOf(victims[i])))
  }

  /** The steps killed some running tasks, put exactly those back in the queue, and started nothing. */
  ghost predicate OnlyPreempts(before: TaskTable, after: TaskTable, steps: seq<Action>) {
    after == Released(before, Killed(steps)) && Started(steps) == {} && Ordered(steps)
  }

  lemma {:induction false} NothingPreempted(tasks: TaskTable, after: TaskTable, steps: seq<Action>)
    ensures OnlyPreempts(tasks, tasks, []) && Killed([]) == {}
    ensures OnlyPreempts(tasks, after, steps) && Killed(steps) == {} ==> after == tasks
  {
    ReleasedTwice(tasks, {}, {});
  }

  lemma {:induction false} PreemptsMore(a: TaskTable, b: TaskTable, c: TaskTable, first: seq<Action>,
                                        second: seq<Action>)
    requires OnlyPreempts(a, b, first) && OnlyPreempts(b, c, second)
    requires Killed(first) !! Killed(second)
    ensures OnlyPreempts(a, c, first + second) && Killed(first + second) == Killed(first) + Killed(second)
  {
    Concatenated(first, second);
    ReleasedTwice(a, Killed(first), Killed(second));
  }

  /** On this worker these victims are the shortest sufficient prefix of the candidates. */
  ghost predicate VictimsFor(rule: Rule, v: View, o: TaskOptions, states: WorkerStates, w: WorkerConfig,
                             victims: seq<Task>)
    requires KeyedById(v.tasks)
  {
    var free := |Available(v, w.name, StatesOf(states, w.name), o)|;
    var slots := SlotsLeft(w, free, |Held(v.tasks, w.name)|);
    && w.enabled && w.name in states && Targets(o, w)
    && ShortestPrefix(victims, Candidates(rule, o, v.tasks, w.name), free, slots, o.requestedGpus)
    && Covers(victims, free, slots, o.requestedGpus)
  }

  /** The victims that would be chosen on this worker, if any. */
  ghost function VictimsOn(rule: Rule, v: View, o: TaskOptions, states: WorkerStates, w: WorkerConfig): seq<Task>
    requires KeyedById(v.tasks)
  {
    if exists s :: VictimsFor(rule, v, o, states, w, s) then
      var s :| VictimsFor(rule, v, o, states, w, s); s
    else []
  }

  lemma {:induction false} VictimsOnIs(rule: Rule, v: View, o: TaskOptions, states: WorkerStates, w: WorkerConfig,
                                       victims: seq<Task>)
    requires KeyedById(v.tasks)
    requires VictimsFor(rule, v, o, states, w, victims)
    ensures VictimsOn(rule, v, o, states, w) == victims
  {
    hide Available, Candidates, ShortestPrefix;
    var free := |Available(v, w.name, StatesOf(states, w.name), o)|;
    ShortestPrefixIsUnique(VictimsOn(rule, v, o, states, w), victims, Candidates(rule, o, v.tasks, w.name), free,
                           SlotsLeft(w, free, |Held(v.tasks, w.name)|), o.requestedGpus);
  }

  lemma {:induction false} NoVictimsOn(rule: Rule, v: View, o: TaskOptions, states: WorkerStates, w: WorkerConfig)
    requires KeyedById(v.tasks)
    requires forall s :: !VictimsFor(rule, v, o, states, w, s)
    ensures KillRequests(VictimsOn(rule, v, o, states, w)) == []
  {
    hide VictimsFor;
  }

  /** The kills requested while walking these workers, each with all the victims chosen there. */
  ghost function CountRequests(rule: Rule, v: View, o: TaskOptions, states: WorkerStates,
                               workers: seq<WorkerConfig>): seq<Request>
    requires KeyedById(v.tasks)
  {
    if workers == [] then []
    else
      var n := |workers| - 1;
      CountRequests(rule, v, o, states, workers[..n]) + KillRequests(VictimsOn(rule, v, o, states, workers[n]))
  }

  lemma {:induction false} NoRequests(rule: Rule, v: View, o: TaskOptions, states: WorkerStates,
                                      workers: seq<WorkerConfig>)
    requires KeyedById(v.tasks)
    ensures CountRequests(rule, v, o, states, workers[..0]) == []
  {
  }

  lemma {:induction false} NextWorkerRequests(rule: Rule, v: View, o: TaskOptions, states: WorkerStates,
                                              workers: seq<WorkerConfig>, i: nat)
    requires KeyedById(v.tasks) && i < |workers|
    ensures CountRequests(rule, v, o, states, workers[..i + 1]) ==
            CountRequests(rule, v, o, states, workers[..i]) + KillRequests(VictimsOn(rule, v, o, states, workers[i]))
    ensures !workers[i].enabled || workers[i].name !in states || !Targets(o, workers[i]) ==>
              CountRequests(rule, v, o, states, workers[..i + 1]) == CountRequests(rule, v, o, states, workers[..i])
  {
    assert workers[..i + 1][..i] == workers[..i];
  }

  lemma {:induction false} VictimsAreCandidates(rule: Rule, o: TaskOptions, tasks: TaskTable, w: WorkerName,
                                                victims: seq<Task>)
    requires KeyedById(tasks)
    requires victims <= Candidates(rule, o, tasks, w)
    ensures DistinctIds(victims)
    ensures forall t | t in victims :: t.id in OnWorker(tasks, w) && tasks[t.id] == t && MayPreempt(rule, o, t)
  {
    CandidatesMembers(rule, o, tasks, w);
    var all := Candidates(rule, o, tasks, w);
    assert forall i | 0 <= i < |victims| :: victims[i] == all[i];
    assert forall t | t in victims :: t in all;
  }

  // ----- the attempt of one regular task -----

  /** What `_find_plan` may return. */
  ghost predicate BestPlan(workers: seq<WorkerConfig>, v: View, o: TaskOptions, states: WorkerStates,
                           plan: Option<DispatchPlan>)
  {
    && (plan.None? <==> forall i | 0 <= i < |workers| :: !Eligible(workers, v, o, states, i))
    && (plan.Some? ==>
          && PlanChosen(workers, v, o, states, plan.value)
          && plan.value.worker in workers && Fits(plan.value.worker, v.tasks, o, plan.value.gpus))
  }

  /** How an attempt came by its plan: as things were, or after preempting in one of the three ways. */
  datatype Route =
    | Direct
    | ForNode(best: Proposal)
    | ByCount(rule: Rule, worker: WorkerConfig, victims: seq<Task>)

  /** The state of the pass around the search for one task's plan. */
  datatype Search = Search(
    workers: seq<WorkerConfig>,
    options: TaskOptions,
    before: View,
    states: WorkerStates,
    now: View,
    refreshed: WorkerStates)

  /** One attempt's search and what came of it. */
  datatype Attempt = Attempt(
    id: TaskId,
    search: Search,
    route: Route,
    plan: Option<DispatchPlan>,
    killed: set<TaskId>,
    started: bool,
    requests: seq<Request>)

  /** The row of a task launched by this plan. */
  ghost function StartedRow(t: Task, plan: DispatchPlan, now: nat): Task {
    MarkedRunning(t, plan.worker.name, plan.gpus, Site(plan.worker.name, t.id), now)
  }

  /** No kill: the plan is the best one as things were. */
  ghost predicate DirectRoute(s: Search, plan: Option<DispatchPlan>, killed: set<TaskId>) {
    killed == {} && s.refreshed == s.states && BestPlan(s.workers, s.before, s.options, s.states, plan)
  }

  /** A plan existed but crossed nodes; victims of the least proposal were killed; only a local plan is used. */
  ghost predicate NodeRoute(s: Search, best: Proposal, plan: Option<DispatchPlan>, killed: set<TaskId>)
    requires KeyedById(s.before.tasks)
  {
    && WantsNode(s.options)
    && LeastProposal(Some(best), s.workers, s.before, s.options, s.states)
    && killed != {} && killed <= IdsOf(VictimTasks(best.Victims()))
    && (exists first ::
          && BestPlan(s.workers, s.before, s.options, s.states, Some(first))
          && !PlanIsNumaLocal(s.options, first, s.states))
    && SameElsewhere(s.refreshed, s.states, s.workers[best.problem.order].name)
    && exists again ::
         && BestPlan(s.workers, s.now, s.options, s.refreshed, again)
         && plan == OnlyLocal(s.options, again, s.refreshed)
  }

  function OnlyLocal(o: TaskOptions, plan: Option<DispatchPlan>, states: WorkerStates): Option<DispatchPlan> {
    if plan.Some? && PlanIsNumaLocal(o, plan.value, states) then plan else None
  }

  /** No worker had room; victims of a shortest sufficient prefix were killed; any new plan is used. */
  ghost predicate CountRoute(s: Search, rule: Rule, worker: WorkerConfig, victims: seq<Task>,
                             plan: Option<DispatchPlan>, killed: set<TaskId>)
    requires KeyedById(s.before.tasks)
  {
    && killed != {} && killed <= IdsOf(victims)
    && !rule.NumaRule? && (rule.RegularRule? ==> s.options.allowPreempt)
    && BestPlan(s.workers, s.before, s.options, s.states, None)
    && VictimsFor(rule, s.before, s.options, s.states, worker, victims)
    && SameElsewhere(s.refreshed, s.states, worker.name)
    && BestPlan(s.workers, s.now, s.options, s.refreshed, plan)
  }

  /** After a successful preemption the worker that lost the victims is probed again, once. */
  ghost function LooksOf(s: Search, route: Route): seq<Look> {
    match route
    case Direct => []
    case ForNode(best) =>
      if best.problem.order < |s.workers| then [LookAt(s.workers[best.problem.order].name, s.refreshed)] else []
    case ByCount(_, worker, _) => [LookAt(worker.name, s.refreshed)]
  }

  /** What a search asked of the workers: every kill of every set of victims it chose, in order. */
  ghost predicate Asked(s: Search, route: Route, plan: Option<DispatchPlan>, requests: seq<Request>)
    requires KeyedById(s.before.tasks)
  {
    match route
    case Direct =>
      if plan.None? then
        requests == BackgroundRequests(s) + if s.options.allowPreempt then RegularRequests(s, s.workers) else []
      else if PlanIsNumaLocal(s.options, plan.value, s.states) then requests == []
      else NodeRequests(s, requests)
    case ForNode(best) =>
      && LeastProposal(Some(best), s.workers, s.before, s.options, s.states)
      && requests == KillRequests(VictimTasks(best.Victims()))
    case ByCount(rule, worker, _) =>
      exists i :: 0 <= i < |s.workers| && s.workers[i] == worker &&
        requests == if rule.RegularRule? then BackgroundRequests(s) + RegularRequests(s, s.workers[..i + 1])
                    else CountRequests(rule, s.before, s.options, s.states, s.workers[..i + 1])
  }

  ghost function BackgroundRequests(s: Search): seq<Request>
    requires KeyedById(s.before.tasks)
  {
    CountRequests(BackgroundRule, s.before, s.options, s.states, s.workers)
  }

  ghost function RegularRequests(s: Search, workers: seq<WorkerConfig>): seq<Request>
    requires KeyedById(s.before.tasks)
  {
    CountRequests(RegularRule, s.before, s.options, s.states, workers)
  }

  /** The kills of the least proposal, or none when there is no proposal. */
  ghost predicate NodeRequests(s: Search, requests: seq<Request>)
    requires KeyedById(s.before.tasks)
  {
    if !WantsNode(s.options) then requests == []
    else
      exists best: Option<Proposal> ::
        && LeastProposal(best, s.workers, s.before, s.options, s.states)
        && requests == if best.Some? then KillRequests(VictimTasks(best.value.Victims())) else []
  }

  ghost predicate Routed(s: Search, route: Route, plan: Option<DispatchPlan>, killed: set<TaskId>)
    requires KeyedById(s.before.tasks)
  {
    match route
    case Direct => DirectRoute(s, plan, killed)
    case ForNode(best) => NodeRoute(s, best, plan, killed)
    case ByCount(rule, worker, victims) => CountRoute(s, rule, worker, victims, plan, killed)
  }

  /**
   * One attempt, as the table shows it: the killed tasks were running with a lower priority and are queued
   * again, the attempted task may be running now, and no other row changed.
   */
  ghost predicate AttemptEffect(before: TaskTable, after: TaskTable, id: TaskId, steps: seq<Action>)
    requires id in before
  {
    && after.Keys == before.Keys
    && (forall k | k in Killed(steps) ::
          && k in before && before[k].status == Running && before[k].options.priority < before[id].options.priority
          && after[k] == Requeued(before[k]))
    && (forall t | t in before && t !in Killed(steps) && t != id :: after[t] == before[t])
    && (if Started(steps) == {} then after[id] == before[id]
        else Started(steps) == {id} && after[id].status == Running && after[id].id == before[id].id
             && after[id].createdAt == before[id].createdAt && after[id].options == before[id].options
             && after[id].lastStart == before[id].lastStart && after[id].lastStop == before[id].lastStop)
    && Ordered(steps)
  }

  /** Every victim of any of the three routes was running with a lower priority. */
  lemma {:induction false} RoutedVictims(s: Search, route: Route, plan: Option<DispatchPlan>, killed: set<TaskId>,
                                         k: TaskId)
    requires KeyedById(s.before.tasks)
    requires Routed(s, route, plan, killed) && k in killed
    ensures k in s.before.tasks && s.before.tasks[k].status == Running
    ensures s.before.tasks[k].options.priority < s.options.priority
    ensures s.before.tasks[k].options.background || s.before.tasks[k].options.preemptible
    ensures route.ForNode? ==> MayPreempt(NumaRule, s.options, s.before.tasks[k])
    ensures route.ByCount? ==> MayPreempt(route.rule, s.options, s.before.tasks[k])
  {
    match route
    case Direct =>
    case ForNode(best) =>
      ProposalVictims(s.workers, s.before, s.options, s.states, best);
    case ByCount(rule, worker, victims) =>
      VictimsAreCandidates(rule, s.options, s.before.tasks, worker.name, victims);
  }

  /** The plan fits the tables it will be used on. */
  lemma {:induction false} RoutedPlanFits(s: Search, route: Route, plan: DispatchPlan, steps: seq<Action>)
    requires KeyedById(s.before.tasks)
    requires OnlyPreempts(s.before.tasks, s.now.tasks, steps)
    requires Routed(s, route, Some(plan), Killed(steps))
    ensures plan.worker in s.workers && Fits(plan.worker, s.now.tasks, s.options, plan.gpus)
  {
    hide Killed, Fits, PlanChosen, Eligible, OnlyPreempts;
    NothingPreempted(s.before.tasks, s.now.tasks, steps);
  }

  lemma {:induction false} RoutedEffect(s: Search, route: Route, plan: Option<DispatchPlan>, id: TaskId,
                                        steps: seq<Action>)
    requires KeyedById(s.before.tasks)
    requires id in s.before.tasks && s.before.tasks[id].status == Queued && s.options == s.before.tasks[id].options
    requires OnlyPreempts(s.before.tasks, s.now.tasks, steps)
    requires Routed(s, route, plan, Killed(steps))
    ensures AttemptEffect(s.before.tasks, s.now.tasks, id, steps)
    ensures s.now.tasks == Released(s.before.tasks, Killed(steps))
    ensures Started(steps) == {} && id in s.now.tasks && s.now.tasks[id] == s.before.tasks[id]
  {
    hide Routed, Killed, Started, Ordered;
    forall k | k in Killed(steps)
      ensures k in s.before.tasks && s.before.tasks[k].status == Running
              && s.before.tasks[k].options.priority < s.options.priority
    {
      RoutedVictims(s, route, plan, Killed(steps), k);
    }
  }

  lemma {:induction false} StartEffect(before: TaskTable, between: TaskTable, after: TaskTable, id: TaskId, row: Task,
                                       first: seq<Action>, second: seq<Action>)
    requires id in before && AttemptEffect(before, between, id, first) && Started(first) == {}
    requires Killed(second) == {} && Ordered(second)
    requires if Started(second) == {} then after == between
             else Started(second) == {id} && after == between[id := row] && row.status == Running
                  && row.id == before[id].id && row.createdAt == before[id].createdAt
                     && row.options == before[id].options
                  && row.lastStart == before[id].lastStart && row.lastStop == before[id].lastStop
    ensures AttemptEffect(before, after, id, first + second)
    ensures Killed(first + second) == Killed(first) && Started(first + second) == Started(second)
  {
    hide Killed, Started, Ordered;
    Concatenated(first, second);
  }
}
