/** A state in which `_find_numa_preemption_plan` misses a same-node allocation that one background task blocks. */
module NumaGap {
  import opened Models
  import opened Lifecycle
  import opened Capacity
  import opened Queries
  import opened Occupancy
  import opened GpuConditions
  import opened GpuSelection
  import opened Placement
  import opened Victims
  import opened NumaPreemption
  import opened NumaReach

  function Idle(index: int, node: int): GpuState {
    GpuState(index, 0, 0, 1000, Some(node))
  }

  const BUSY_ELSEWHERE := GpuState(3, 0, 100, 1000, Some(1))

  /** The first worker has two free GPUs on two nodes, the second two on one node but a single slot left. */
  const SPLIT := WorkerConfig("a", true, [], None, 1)
  const BLOCKED := WorkerConfig("b", true, [], Some(2), 1)
  const WORKERS := [SPLIT, BLOCKED]

  const WANTED := TaskOptions(1, 2, None, None, None, None, 0, false, false, false, false, None, None, "UTC")
  const LESSER := TaskOptions(0, 1, None, None, None, None, 0, true, false, true, false, None, None, "UTC")

  /** A background task of lower priority holds one GPU and one slot of the second worker. */
  const HOLDER := Task(7, LESSER, Running, 0, Some(0), None, Some("b"), [2], Some(Site("b", 7)), None, None, None)
  const TASKS: TaskTable := map[7 := HOLDER]
  const VIEW := View(TASKS, map[], DaemonConfig(100, 10), 0)
  ghost const FREED := View(Released(TASKS, {7}), map[], DaemonConfig(100, 10), 0)

  const ON_SPLIT := [Idle(0, 0), Idle(1, 1)]
  const ON_BLOCKED := [Idle(0, 0), Idle(1, 0), Idle(2, 1), BUSY_ELSEWHERE]
  const STATES: WorkerStates := map["a" := ON_SPLIT, "b" := ON_BLOCKED]

  lemma {:induction false} Holdings()
    ensures KeyedById(TASKS) && KeyedById(FREED.tasks)
    ensures OnWorker(TASKS, "a") == {} && OnWorker(TASKS, "b") == {7}
    ensures OnWorker(FREED.tasks, "a") == {} && OnWorker(FREED.tasks, "b") == {}
  {
  }

  lemma {:induction false} Counts()
    ensures Held(TASKS, "a") == {} && |Held(TASKS, "b")| == 1 && Held(FREED.tasks, "b") == {}
    ensures BusyGpus(TASKS, "a") == {} && BusyGpus(TASKS, "b") == {2} && BusyGpus(FREED.tasks, "b") == {}
  {
    Holdings();
    assert TASKS[7].gpus == [2] && [2][0] in TASKS[7].gpus;
    assert 7 in OnWorker(TASKS, "b");
    assert BusyGpus(TASKS, "b") == {2};
    assert Held(TASKS, "b") == {(7, 0)};
  }

  lemma {:induction false} WhoSatisfies(v: View, w: WorkerName)
    requires v == VIEW || v == FREED
    ensures forall g | g in ON_SPLIT :: Satisfies(v, w, g, WANTED)
    ensures forall g | g in ON_BLOCKED :: Satisfies(v, w, g, WANTED) <==> g.index != 3
    ensures DistinctIndexes(ON_SPLIT) && DistinctIndexes(ON_BLOCKED)
  {
  }

  /** What each view leaves free on the two workers. */
  lemma {:induction false} FreeGpus()
    ensures forall g :: g in Available(VIEW, "a", ON_SPLIT, WANTED) <==> g in ON_SPLIT
    ensures forall g :: g in Available(VIEW, "b", ON_BLOCKED, WANTED) <==> g in ON_BLOCKED && g.index < 2
    ensures forall g :: g in Available(FREED, "b", ON_BLOCKED, WANTED) <==> g in ON_BLOCKED && g.index < 3
  {
    Counts();
    WhoSatisfies(VIEW, "a");
    WhoSatisfies(VIEW, "b");
    WhoSatisfies(FREED, "b");
    AvailableMembers(VIEW, "a", ON_SPLIT, WANTED);
    AvailableMembers(VIEW, "b", ON_BLOCKED, WANTED);
    AvailableMembers(FREED, "b", ON_BLOCKED, WANTED);
  }

  lemma {:induction false} OnlyCandidate(w: WorkerName)
    requires w == "a" || w == "b"
    ensures KeyedById(TASKS)
    ensures Candidates(NumaRule, WANTED, TASKS, w) == if w == "a" then [] else [HOLDER]
  {
    hide Candidates;
    Holdings();
    CandidatesMembers(NumaRule, WANTED, TASKS, w);
    var c := Candidates(NumaRule, WANTED, TASKS, w);
    assert TASKS[7] == HOLDER && MayPreempt(NumaRule, WANTED, HOLDER);
    assert forall i | 0 <= i < |c| :: c[i] in c;
    ListSize(c, TASKS, OnWorker(TASKS, w));
  }

  lemma {:induction false} NodeOneFallsShort(p: NodeProblem)
    requires p.options == OptionsOn([HOLDER], ON_BLOCKED, 1, WANTED)
    requires p.free == {} && p.requested == 2
    ensures !Sufficient(p, p.options)
  {
    var freed := FreedOnNode(HOLDER, ON_BLOCKED, 1, WANTED);
    assert HOLDER.gpus == [2] && freed <= {2};
    SubsetSize(freed, {2});
    assert [HOLDER][..0] == [];
    if p.options != [] {
      assert p.options == [VictimOption(HOLDER, freed)];
      assert p.options[1..] == [];
      assert Releasable(p.free, p.options) == freed;
    }
  }

  lemma {:induction false} FreeByNode(free: seq<GpuState>)
    requires forall g :: g in free <==> g in ON_BLOCKED && g.index < 2
    ensures FreeOnNode(free, 0) == {0, 1} && FreeOnNode(free, 1) == {}
  {
    assert ON_BLOCKED[0] in free && ON_BLOCKED[1] in free;
  }

  lemma {:induction false} NodesOfBlocked()
    ensures Nodes(ON_BLOCKED) == {0, 1}
  {
    assert ON_BLOCKED[0] in ON_BLOCKED && ON_BLOCKED[2] in ON_BLOCKED;
    assert 0 in Nodes(ON_BLOCKED) && 1 in Nodes(ON_BLOCKED);
  }

  lemma {:induction false} PosedOnSplit(p: NodeProblem)
    requires KeyedById(TASKS)
    requires Posed(WORKERS, VIEW, WANTED, STATES, p) && p.order == 0
    ensures p.options == []
  {
    hide Available, Candidates, Searched;
    OnlyCandidate("a");
  }

  /** Node 0 has free GPUs enough, so it is not searched; node 1 has none free. */
  lemma {:induction false} PosedOnBlocked(p: NodeProblem)
    requires KeyedById(TASKS)
    requires Posed(WORKERS, VIEW, WANTED, STATES, p) && p.order == 1
    ensures p.options == OptionsOn([HOLDER], ON_BLOCKED, 1, WANTED)
    ensures p.free == {} && p.requested == 2
  {
    hide Available, Candidates, OptionsOn, Nodes;
    OnlyCandidate("b");
    NodesOfBlocked();
    FreeGpus();
    FreeByNode(Available(VIEW, "b", ON_BLOCKED, WANTED));
    assert |{0, 1}| == 2;
    assert p.node == 1;
  }

  lemma {:induction false} NothingPosedSuffices(p: NodeProblem)
    requires KeyedById(TASKS)
    requires Posed(WORKERS, VIEW, WANTED, STATES, p)
    ensures p.options == [] || !Sufficient(p, p.options)
  {
    assert p.order < 2;
    hide Posed, Sufficient;
    if p.order == 0 {
      PosedOnSplit(p);
    } else {
      PosedOnBlocked(p);
      NodeOneFallsShort(p);
    }
  }

  /** The search has no proposal to make. */
  lemma {:induction false} SearchFindsNothing(best: Option<Proposal>)
    requires KeyedById(TASKS)
    requires LeastProposal(best, WORKERS, VIEW, WANTED, STATES)
    ensures best == None
  {
    hide Posed, Sufficient, LeastProposal;
    PlanExistsExactly(best, WORKERS, VIEW, WANTED, STATES);
    if p :| Posed(WORKERS, VIEW, WANTED, STATES, p) && p.options != [] && Sufficient(p, p.options) {
      NothingPosedSuffices(p);
      assert false;
    }
  }

  lemma {:induction false} SplitHasNoNode(free: seq<GpuState>)
    requires DistinctIndexes(free) && forall g | g in free :: g in ON_SPLIT
    ensures !NodeFits(free, 2)
  {
    forall q: seq<GpuState> | Choice(q, free, 2)
      ensures !NodeLocal(q)
    {
      SubsetIsDistinct(free, q);
      assert q[0] in multiset(free) && q[1] in multiset(free);
      assert q[0] in free && q[1] in free && q[0].index != q[1].index;
      assert forall g | g in ON_SPLIT :: g.numaNode == Some(g.index);
      assert q[0].numaNode != q[1].numaNode;
    }
  }

  lemma {:induction false} StatesAreValid()
    ensures ValidStates(STATES)
    ensures WANTED.requestedGpus == 2 && !WANTED.elastic
  {
    WhoSatisfies(VIEW, "a");
  }

  lemma {:induction false} BlockedHasNoRoom()
    ensures !Eligible(WORKERS, VIEW, WANTED, STATES, 1)
  {
    hide Available;
    Counts();
  }

  lemma {:induction false} NoNodeNow(j: nat)
    requires j < |WORKERS| && Eligible(WORKERS, VIEW, WANTED, STATES, j)
    ensures !NodeFits(FreeOn(WORKERS, VIEW, WANTED, STATES, j), 2)
  {
    BlockedHasNoRoom();
    hide Available, Eligible, NodeFits;
    FreeGpus();
    WhoSatisfies(VIEW, "a");
    AvailableMembers(VIEW, "a", ON_SPLIT, WANTED);
    SplitHasNoNode(Available(VIEW, "a", ON_SPLIT, WANTED));
  }

  /** So whatever plan the task has now crosses nodes. */
  lemma {:induction false} PlanCrossesNodes(plan: DispatchPlan)
    requires PlanChosen(WORKERS, VIEW, WANTED, STATES, plan)
    ensures !PlanIsNumaLocal(WANTED, plan, STATES)
  {
    hide *;
    StatesAreValid();
    PlanIsLocalWhenPossible(WORKERS, VIEW, WANTED, STATES, plan);
    forall j: nat | j < |WORKERS| && Eligible(WORKERS, VIEW, WANTED, STATES, j)
      ensures !NodeFits(FreeOn(WORKERS, VIEW, WANTED, STATES, j), 2)
    {
      NoNodeNow(j);
    }
  }

  lemma {:induction false} RoomAfterwards()
    ensures var free := FreeOn(WORKERS, FREED, WANTED, STATES, 1);
            ON_BLOCKED[0] in free && ON_BLOCKED[1] in free
    ensures Eligible(WORKERS, FREED, WANTED, STATES, 1)
  {
    FreeGpus();
    Counts();
    hide Held, BackgroundOn, Available;
    var free := FreeOn(WORKERS, FREED, WANTED, STATES, 1);
    assert ON_BLOCKED[0] in free && ON_BLOCKED[1] in free;
    PairIsSmall(free);
  }

  /** The two GPUs of node 0. */
  const PAIR := [Idle(0, 0), Idle(1, 0)]

  lemma {:induction false} PairIsSmall(free: seq<GpuState>)
    requires PAIR[0] in free && PAIR[1] in free
    ensures multiset(PAIR) <= multiset(free) && |free| >= 2
  {
    SubsetSizes(multiset(PAIR), multiset(free));
  }

  /** Yet with the holder back in the queue, the second worker has room on node 0. */
  lemma {:induction false} NodeIsFreeAfterwards()
    ensures MayPreempt(NumaRule, WANTED, HOLDER)
    ensures Eligible(WORKERS, FREED, WANTED, STATES, 1)
    ensures NodeFits(FreeOn(WORKERS, FREED, WANTED, STATES, 1), 2)
  {
    RoomAfterwards();
    hide FreeOn, Eligible;
    var free := FreeOn(WORKERS, FREED, WANTED, STATES, 1);
    assert ON_BLOCKED[0] == PAIR[0] && ON_BLOCKED[1] == PAIR[1];
    PairIsSmall(free);
    assert SingleNode(PAIR, 0);
    assert Choice(PAIR, free, 2) && NodeLocal(PAIR);
  }

  /** And a plan there is: the first worker has room. */
  lemma {:induction false} SplitHasRoom()
    ensures Eligible(WORKERS, VIEW, WANTED, STATES, 0)
  {
    FreeGpus();
    Counts();
    var free := FreeOn(WORKERS, VIEW, WANTED, STATES, 0);
    assert ON_SPLIT[0] in free && ON_SPLIT[1] in free;
    assert multiset(ON_SPLIT) <= multiset(free);
    SubsetSizes(multiset(ON_SPLIT), multiset(free));
  }

  lemma {:induction false} WideOnBlocked()
    ensures KeyedById(TASKS)
    ensures WideProblem(WORKERS, VIEW, WANTED, STATES, 1, 0) ==
            NodeProblem([VictimOption(HOLDER, FreedOnNode(HOLDER, ON_BLOCKED, 0, WANTED))], {0, 1}, 2, Some(2), 1, 1, 0)
  {
    OnlyCandidate("b");
    FreeGpus();
    FreeByNode(Available(VIEW, "b", ON_BLOCKED, WANTED));
    Counts();
    assert [HOLDER][..0] == [];
    assert AllOptions([HOLDER], ON_BLOCKED, 0, WANTED) ==
      [VictimOption(HOLDER, FreedOnNode(HOLDER, ON_BLOCKED, 0, WANTED))];
    hide Candidates, Available, Held, AllOptions, OptionsOn, FreedOnNode;
  }

  /** Node 0 of the second worker is blocked, but not for want of GPUs, so it is out of the search's reach. */
  lemma {:induction false} NodeIsBlocked()
    ensures KeyedById(TASKS)
    ensures Blocked(WORKERS, VIEW, WANTED, STATES, 1, 0)
    ensures !ShortOfGpus(WORKERS, VIEW, WANTED, STATES, 1, 0)
  {
    WideOnBlocked();
    NodesOfBlocked();
    assert |{0, 1}| == 2;
    hide ProblemOn, Sufficient, AllOptions;
    var wide := WideProblem(WORKERS, VIEW, WANTED, STATES, 1, 0);
    assert wide.free == ProblemOn(WORKERS, VIEW, WANTED, STATES, 1, 0).free;
    ReleasingFreesSlot(wide, FreedOnNode(HOLDER, ON_BLOCKED, 0, WANTED));
    SomeSubsetSuffices(wide);
  }

  lemma {:induction false} ReleasingFreesSlot(p: NodeProblem, freed: set<int>)
    requires p.options == [VictimOption(HOLDER, freed)] && p.free == {0, 1}
    requires p.cap == Some(2) && p.used == 1 && p.requested == 2
    ensures Sufficient(p, p.options)
  {
    assert p.options[1..] == [];
    assert Releasable(p.free, p.options) == freed + {0, 1};
    SubsetSize({0, 1}, freed + {0, 1});
  }

  /** Nothing is unusual about this state: the row and every limit are in order. */
  lemma {:induction false} StateIsOrderly()
    ensures ValidWorkers(WORKERS) && RowInvariant(HOLDER)
    ensures CapacityInvariant(WORKERS, TASKS)
  {
    Counts();
    Holdings();
    assert BackgroundOn(TASKS, "a") == {} && BackgroundOn(TASKS, "b") == {7};
    assert WithinLimits(SPLIT, TASKS) && WithinLimits(BLOCKED, TASKS);
  }
}
