/**
 * Which same-node allocations a dispatch attempt preempts for, of all that lower-priority tasks block:
 * the exact condition under which the search is run, reaches the node and has victims to offer.
 */
module NumaReach {
  import opened Models
  import opened Lifecycle
  import opened Capacity
  import opened Queries
  import opened GpuSelection
  import opened Placement
  import opened Victims
  import opened NumaPreemption
  import opened Remote
  import opened DispatchEffects
  import opened PassTrace

  // ----- on one node -----

  /** One option per candidate, also for those that hold nothing usable on the node. */
  function AllOptions(eligible: seq<Task>, reported: seq<GpuState>, node: int, o: TaskOptions): seq<VictimOption> {
    if eligible == [] then []
    else
      var n := |eligible| - 1;
      AllOptions(eligible[..n], reported, node, o)
        + [VictimOption(eligible[n], FreedOnNode(eligible[n], reported, node, o))]
  }

  lemma {:induction false} ReleasableAppend(free: set<int>, sel: seq<VictimOption>, x: VictimOption)
    ensures Releasable(free, sel + [x]) == Releasable(free, sel) + x.gpus
    ensures ReleasedCount(sel + [x]) == ReleasedCount(sel) + |x.victim.gpus|
  {
    if sel == [] {
      assert sel + [x] == [x] && [x][1..] == [];
    } else {
      assert (sel + [x])[1..] == sel[1..] + [x];
      ReleasableAppend(free, sel[1..], x);
    }
  }

  /** Candidates without usable GPUs on the node add nothing there; they may add slots. */
  lemma {:induction false} AllOptionsRelease(eligible: seq<Task>, reported: seq<GpuState>, node: int, o: TaskOptions,
                                             free: set<int>)
    ensures Releasable(free, AllOptions(eligible, reported, node, o)) ==
            Releasable(free, OptionsOn(eligible, reported, node, o))
    ensures ReleasedCount(AllOptions(eligible, reported, node, o)) >= ReleasedCount(OptionsOn(eligible, reported, node,
            o))
    ensures OptionsOn(eligible, reported, node, o) != [] ==> AllOptions(eligible, reported, node, o) != []
  {
    if eligible != [] {
      var n := |eligible| - 1;
      var freed := FreedOnNode(eligible[n], reported, node, o);
      var all, held := AllOptions(eligible[..n], reported, node, o), OptionsOn(eligible[..n], reported, node, o);
      AllOptionsRelease(eligible[..n], reported, node, o, free);
      ReleasableAppend(free, all, VictimOption(eligible[n], freed));
      ReleasableAppend(free, held, VictimOption(eligible[n], freed));
      assert held + [] == held;
    }
  }

  /** The node's problem if every lower-priority task that may be preempted on the worker counted as a victim. */
  ghost function WideProblem(workers: seq<WorkerConfig>, v: View, o: TaskOptions, states: WorkerStates, i: nat,
                             node: int): NodeProblem
    requires i < |workers| && KeyedById(v.tasks)
  {
    ProblemOn(workers, v, o, states, i, node).(
      options := AllOptions(Candidates(NumaRule, o, v.tasks, workers[i].name), StatesOf(states, workers[i].name), node,
        o))
  }

  /** Releasing some of those tasks would leave enough usable GPUs on the node and enough slots on the worker. */
  ghost predicate Blocked(workers: seq<WorkerConfig>, v: View, o: TaskOptions, states: WorkerStates, i: nat, node: int)
    requires i < |workers| && KeyedById(v.tasks)
  {
    && workers[i].enabled && workers[i].name in states && Targets(o, workers[i])
    && node in Nodes(states[workers[i].name])
    && exists pick :: Feasible(WideProblem(workers, v, o, states, i, node), pick)
  }

  /** The node's own free GPUs do not make up the request. */
  ghost predicate ShortOfGpus(workers: seq<WorkerConfig>, v: View, o: TaskOptions, states: WorkerStates, i: nat,
                              node: int)
    requires i < |workers| && KeyedById(v.tasks)
  {
    |ProblemOn(workers, v, o, states, i, node).free| < o.requestedGpus
  }

  /** The victims that hold usable GPUs on the node free enough slots between them. */
  ghost predicate HoldersFreeSlots(workers: seq<WorkerConfig>, v: View, o: TaskOptions, states: WorkerStates, i: nat,
                                   node: int)
    requires i < |workers| && KeyedById(v.tasks)
  {
    var p := ProblemOn(workers, v, o, states, i, node);
    p.cap.Some? ==> p.cap.value - p.used + ReleasedCount(p.options) >= o.requestedGpus
  }

  /** The search has a victim set to offer on this node. */
  ghost predicate FoundOn(workers: seq<WorkerConfig>, v: View, o: TaskOptions, states: WorkerStates, i: nat, node: int)
    requires i < |workers| && KeyedById(v.tasks)
  {
    Searched(workers, v, o, states, i, node) && exists pick :: Feasible(ProblemOn(workers, v, o, states, i, node), pick)
  }

  /** Of the blocked allocations, the search finds exactly those that lack GPUs and whose holders free the slots. */
  lemma {:induction false} FoundExactly(workers: seq<WorkerConfig>, v: View, o: TaskOptions, states: WorkerStates,
                                        i: nat, node: int)
    requires i < |workers| && KeyedById(v.tasks) && o.requestedGpus >= 1
    ensures FoundOn(workers, v, o, states, i, node) <==>
            && Blocked(workers, v, o, states, i, node)
            && ShortOfGpus(workers, v, o, states, i, node)
            && HoldersFreeSlots(workers, v, o, states, i, node)
  {
    var p, wide := ProblemOn(workers, v, o, states, i, node), WideProblem(workers, v, o, states, i, node);
    AllOptionsRelease(Candidates(NumaRule, o, v.tasks, workers[i].name), StatesOf(states, workers[i].name), node, o,
      p.free);
    hide Candidates, Available, OptionsOn, AllOptions, Held, Feasible;
    SomeSubsetSuffices(p);
    SomeSubsetSuffices(wide);
  }

  ghost predicate InReach(workers: seq<WorkerConfig>, v: View, o: TaskOptions, states: WorkerStates)
    requires KeyedById(v.tasks)
  {
    exists i: nat, node ::
      && i < |workers|
      && Blocked(workers, v, o, states, i, node)
      && ShortOfGpus(workers, v, o, states, i, node)
      && HoldersFreeSlots(workers, v, o, states, i, node)
  }

  lemma {:induction false} ProposalExactly(best: Option<Proposal>, workers: seq<WorkerConfig>, v: View, o: TaskOptions,
                                           states: WorkerStates)
    requires KeyedById(v.tasks) && o.requestedGpus >= 1
    requires LeastProposal(best, workers, v, o, states)
    ensures best.Some? <==> InReach(workers, v, o, states)
  {
    hide ProblemOn, Searched, Blocked, ShortOfGpus, HoldersFreeSlots, Sufficient;
    if best.Some? {
      var p := best.value.problem;
      assert Feasible(p, best.value.pick);
      FoundExactly(workers, v, o, states, p.order, p.node);
      assert FoundOn(workers, v, o, states, p.order, p.node);
    }
    if i: nat, node :|
      && i < |workers|
      && Blocked(workers, v, o, states, i, node)
      && ShortOfGpus(workers, v, o, states, i, node)
      && HoldersFreeSlots(workers, v, o, states, i, node)
    {
      FoundExactly(workers, v, o, states, i, node);
      var p := ProblemOn(workers, v, o, states, i, node);
      var pick :| Feasible(p, pick);
      ProblemNamesItsNode(workers, v, o, states, i, node);
      assert Unbeaten(best, Proposal(p, pick));
    }
  }

  lemma {:induction false} ProblemNamesItsNode(workers: seq<WorkerConfig>, v: View, o: TaskOptions,
                                               states: WorkerStates, i: nat, node: int)
    requires i < |workers| && KeyedById(v.tasks) && Searched(workers, v, o, states, i, node)
    ensures Posed(workers, v, o, states, ProblemOn(workers, v, o, states, i, node))
  {
  }

  // ----- in one attempt -----

  /** The task could start as things are, but only across nodes. */
  ghost predicate CrossesNow(s: Search) {
    exists plan ::
      && BestPlan(s.workers, s.before, s.options, s.states, Some(plan))
      && !PlanIsNumaLocal(s.options, plan, s.states)
  }

  /** The attempt asked for the kills of a node proposal, whether or not one succeeded. */
  ghost predicate ProposedNode(route: Route, plan: Option<DispatchPlan>, asked: seq<Request>) {
    route.ForNode? || (route.Direct? && plan.Some? && asked != [])
  }

  /** All best plans of a task that wants a node agree on whether they cross nodes. */
  lemma {:induction false} LocalityAgrees(s: Search, a: DispatchPlan, b: DispatchPlan)
    requires ValidStates(s.states) && WantsNode(s.options)
    requires BestPlan(s.workers, s.before, s.options, s.states, Some(a))
    requires BestPlan(s.workers, s.before, s.options, s.states, Some(b))
    ensures PlanIsNumaLocal(s.options, a, s.states) <==> PlanIsNumaLocal(s.options, b, s.states)
  {
    hide Eligible, PlanChosen, PlanIsNumaLocal, Fits;
    PlanIsLocalWhenPossible(s.workers, s.before, s.options, s.states, a);
    PlanIsLocalWhenPossible(s.workers, s.before, s.options, s.states, b);
  }

  /** After kills for a node the task gets a plan if and only if a complete one-node allocation is there by then. */
  lemma {:induction false} NodeRouteStartsExactly(s: Search, best: Proposal, plan: Option<DispatchPlan>,
                                                  killed: set<TaskId>)
    requires KeyedById(s.before.tasks) && ValidStates(s.refreshed)
    requires NodeRoute(s, best, plan, killed)
    ensures plan.Some? <==>
            exists j :: 0 <= j < |s.workers| && Eligible(s.workers, s.now, s.options, s.refreshed, j)
              && NodeFits(FreeOn(s.workers, s.now, s.options, s.refreshed, j), s.options.requestedGpus)
    ensures plan.Some? ==> PlanIsNumaLocal(s.options, plan.value, s.refreshed)
  {
    hide LeastProposal, Eligible, PlanChosen, PlanIsNumaLocal, Fits, SameElsewhere, FreeOn, NodeFits;
    var again :| BestPlan(s.workers, s.now, s.options, s.refreshed, again)
      && plan == OnlyLocal(s.options, again, s.refreshed);
    if again.Some? {
      PlanIsLocalWhenPossible(s.workers, s.now, s.options, s.refreshed, again.value);
    }
  }

  lemma {:induction false} PlanOrNone(s: Search, plan: DispatchPlan)
    ensures BestPlan(s.workers, s.before, s.options, s.states, Some(plan)) ==>
              !BestPlan(s.workers, s.before, s.options, s.states, None)
  {
    hide Eligible, Fits;
    if BestPlan(s.workers, s.before, s.options, s.states, Some(plan)) {
      var i, sel :| 0 <= i < |s.workers| && LeastPlan(s.workers, s.before, s.options, s.states, i, sel);
      assert Eligible(s.workers, s.before, s.options, s.states, i);
    }
  }

  lemma {:induction false} NoPlanAtAll(s: Search)
    requires BestPlan(s.workers, s.before, s.options, s.states, None)
    ensures !CrossesNow(s)
  {
    hide BestPlan, PlanIsNumaLocal;
    forall plan
      ensures !BestPlan(s.workers, s.before, s.options, s.states, Some(plan))
    {
      PlanOrNone(s, plan);
    }
  }

  lemma {:induction false} NodeProposal(s: Search, asked: seq<Request>) returns (best: Option<Proposal>)
    requires KeyedById(s.before.tasks) && WantsNode(s.options) && NodeRequests(s, asked)
    ensures LeastProposal(best, s.workers, s.before, s.options, s.states)
    ensures best.Some? <==> asked != []
  {
    best :|
      && LeastProposal(best, s.workers, s.before, s.options, s.states)
      && asked == if best.Some? then KillRequests(VictimTasks(best.value.Victims())) else [];
  }

  lemma {:induction false} DirectProposesExactly(s: Search, plan: DispatchPlan, asked: seq<Request>)
    requires KeyedById(s.before.tasks) && ValidStates(s.states) && s.options.requestedGpus >= 1
    requires DirectRoute(s, Some(plan), {})
    requires Asked(s, Direct, Some(plan), asked)
    ensures asked != [] <==> WantsNode(s.options) && CrossesNow(s) && InReach(s.workers, s.before, s.options, s.states)
  {
    hide BestPlan, PlanIsNumaLocal, LeastProposal, InReach, KillRequests;
    if !PlanIsNumaLocal(s.options, plan, s.states) {
      assert CrossesNow(s);
      if WantsNode(s.options) {
        var best := NodeProposal(s, asked);
        ProposalExactly(best, s.workers, s.before, s.options, s.states);
      }
    } else if WantsNode(s.options) && CrossesNow(s) {
      var other :| BestPlan(s.workers, s.before, s.options, s.states, Some(other))
        && !PlanIsNumaLocal(s.options, other, s.states);
      LocalityAgrees(s, plan, other);
    }
  }

  /**
   * An attempt asks for the kills of a node proposal if and only if the task wants a node, it has a plan
   * but only across nodes, and some blocked node lacks free GPUs while the victims that hold usable GPUs
   * there also free enough slots.
   */
  lemma {:induction false} ProposesExactly(s: Search, route: Route, plan: Option<DispatchPlan>, killed: set<TaskId>,
                                           asked: seq<Request>)
    requires KeyedById(s.before.tasks) && ValidStates(s.states) && s.options.requestedGpus >= 1
    requires Routed(s, route, plan, killed) && Asked(s, route, plan, asked)
    ensures ProposedNode(route, plan, asked) <==>
            WantsNode(s.options) && CrossesNow(s) && InReach(s.workers, s.before, s.options, s.states)
  {
    hide BestPlan, PlanIsNumaLocal, LeastProposal, InReach, KillRequests, VictimsFor, CountRequests;
    match route
    case Direct =>
      if plan.Some? {
        DirectProposesExactly(s, plan.value, asked);
      } else {
        NoPlanAtAll(s);
      }
    case ForNode(best) =>
      ProposalExactly(Some(best), s.workers, s.before, s.options, s.states);
      assert CrossesNow(s);
    case ByCount(_, _, _) =>
      NoPlanAtAll(s);
  }

  /** The same, read off the record of an attempt: besides its launch it made requests for a node. */
  lemma {:induction false} AttemptProposesExactly(a: Attempt, after: TaskTable, at: nat)
    requires AttemptMade(a, after, at)
    requires ValidStates(a.search.states) && a.search.options.requestedGpus >= 1
    ensures (a.route.ForNode? || (a.route.Direct? && a.plan.Some? && |a.requests| > 1)) <==>
            && WantsNode(a.search.options) && CrossesNow(a.search)
            && InReach(a.search.workers, a.search.before, a.search.options, a.search.states)
  {
    hide Routed, Asked, CrossesNow, InReach;
    var asked :| Asked(a.search, a.route, a.plan, asked) && a.requests == asked + Launch(a.plan, a.id);
    ProposesExactly(a.search, a.route, a.plan, a.killed, asked);
  }
}
