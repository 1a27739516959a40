/** A state without any plan: victims are taken on two nodes although two on one node would do. */
module NumaNoPlan {
  import opened Models
  import opened Lifecycle
  import opened Capacity
  import opened Queries
  import opened Occupancy
  import opened GpuConditions
  import opened GpuSelection
  import opened Placement
  import opened Victims
  import opened NumaPreemption
  import opened Remote
  import opened DispatchEffects
  import opened NumaReach

  const WORKER := WorkerConfig("c", true, [], None, 3)
  const WORKERS := [WORKER]

  const WANTED := TaskOptions(5, 2, None, None, None, None, 0, false, false, false, false, None, None, "UTC")

  /** A background task of this priority on one GPU. */
  function Holder(id: TaskId, priority: int, gpu: int): Task {
    Task(id, TaskOptions(priority, 1, None, None, None, None, 0, true, false, true, false, None, None, "UTC"),
         Running, 0, Some(0), None, Some("c"), [gpu], Some(Site("c", id)), None, None, None)
  }

  /** Two tasks hold the GPUs of node 0, and one, of middle priority, the GPU of node 1. */
  const LOW := Holder(0, 0, 0)
  const HIGH := Holder(1, 2, 1)
  const MIDDLE := Holder(2, 1, 2)
  const TASKS: TaskTable := map[0 := LOW, 1 := HIGH, 2 := MIDDLE]
  const VIEW := View(TASKS, map[], DaemonConfig(100, 10), 0)

  const REPORTED := [
    GpuState(0, 0, 0, 1000, Some(0)),
    GpuState(1, 0, 0, 1000, Some(0)),
    GpuState(2, 0, 0, 1000, Some(1))]
  const STATES: WorkerStates := map["c" := REPORTED]

  lemma {:induction false} Holdings()
    ensures KeyedById(TASKS)
    ensures OnWorker(TASKS, "c") == {0, 1, 2}
    ensures forall g | g in REPORTED :: g.index in BusyGpus(TASKS, "c")
    ensures DistinctIndexes(REPORTED)
  {
    assert LOW.gpus[0] == 0 && HIGH.gpus[0] == 1 && MIDDLE.gpus[0] == 2;
    assert 0 in TASKS[0].gpus && 1 in TASKS[1].gpus && 2 in TASKS[2].gpus;
    assert 0 in OnWorker(TASKS, "c") && 1 in OnWorker(TASKS, "c") && 2 in OnWorker(TASKS, "c");
  }

  /** Every GPU is held, so nothing is free. */
  lemma {:induction false} NothingFree()
    ensures Available(VIEW, "c", REPORTED, WANTED) == []
  {
    var free := Available(VIEW, "c", REPORTED, WANTED);
    assert free != [] ==> free[0] in free;
    Holdings();
    AvailableMembers(VIEW, "c", REPORTED, WANTED);
  }

  /** The task has no plan. */
  lemma {:induction false} NoPlan()
    ensures BestPlan(WORKERS, VIEW, WANTED, STATES, None)
  {
    NothingFree();
    hide Available;
    assert !Eligible(WORKERS, VIEW, WANTED, STATES, 0);
  }

  // ----- who may be preempted -----

  lemma {:induction false} AllMayBeTaken(rule: Rule)
    requires !rule.RegularRule?
    ensures TASKS.Keys == {0, 1, 2} && TASKS[0] == LOW && TASKS[1] == HIGH && TASKS[2] == MIDDLE
    ensures forall t | t in {0, 1, 2} :: MayPreempt(rule, WANTED, TASKS[t])
  {
  }

  lemma {:induction false} ThreeListed(c: seq<Task>, tasks: TaskTable)
    requires KeyedById(tasks) && tasks.Keys == {0, 1, 2} && DistinctIds(c)
    requires forall t | t in c :: t.id in tasks && tasks[t.id] == t
    requires tasks[0] in c && tasks[1] in c && tasks[2] in c
    ensures |c| == 3 && forall i | 0 <= i < |c| :: c[i] in {tasks[0], tasks[1], tasks[2]}
  {
    assert forall i | 0 <= i < |c| :: c[i] in c;
    ListSize(c, tasks, {0, 1, 2});
    assert |{0, 1, 2}| == 3;
  }

  lemma {:induction false} AllAreCandidates(rule: Rule)
    requires !rule.RegularRule?
    ensures KeyedById(TASKS)
    ensures var c := Candidates(rule, WANTED, TASKS, "c");
            && DistinctIds(c) && SortedBy(VictimKey(rule), c) && |c| == 3
            && LOW in c && HIGH in c && MIDDLE in c
            && forall i | 0 <= i < |c| :: c[i] in {LOW, HIGH, MIDDLE}
  {
    Holdings();
    AllMayBeTaken(rule);
    hide *;
    CandidatesMembers(rule, WANTED, TASKS, "c");
    assert 0 in {0, 1, 2} && 1 in {0, 1, 2} && 2 in {0, 1, 2};
    ThreeListed(Candidates(rule, WANTED, TASKS, "c"), TASKS);
  }

  lemma {:induction false} CandidateOrder(rule: Rule)
    requires !rule.RegularRule?
    ensures KeyedById(TASKS)
    ensures Candidates(rule, WANTED, TASKS, "c") == [LOW, MIDDLE, HIGH]
  {
    AllAreCandidates(rule);
    var c := Candidates(rule, WANTED, TASKS, "c");
    hide Candidates;
    SortedThree(rule, c);
  }

  lemma {:induction false} SortedThree(rule: Rule, c: seq<Task>)
    requires |c| == 3 && DistinctIds(c) && SortedBy(VictimKey(rule), c)
    requires LOW in c && HIGH in c && MIDDLE in c && forall i | 0 <= i < |c| :: c[i] in {LOW, HIGH, MIDDLE}
    ensures c == [LOW, MIDDLE, HIGH]
  {
    assert c[0].options.priority <= c[1].options.priority <= c[2].options.priority;
    assert LOW.options.priority < MIDDLE.options.priority < HIGH.options.priority;
    assert c[0].id != c[1].id && c[1].id != c[2].id && c[0].id != c[2].id;
  }

  lemma {:induction false} TwoCover()
    ensures ShortestPrefix([LOW, MIDDLE], [LOW, MIDDLE, HIGH], 0, 0, 2) && Covers([LOW, MIDDLE], 0, 0, 2)
  {
    var c := [LOW, MIDDLE, HIGH];
    assert [LOW, MIDDLE] == c[..2] && c[..1] == [LOW];
    assert |LOW.gpus| == 1 && |MIDDLE.gpus| == 1;
    SlotSumAppend([], LOW);
    SlotSumAppend([LOW], MIDDLE);
    assert [] + [LOW] == [LOW] && [LOW] + [MIDDLE] == [LOW, MIDDLE];
  }

  lemma {:induction false} WhereTheyRun()
    ensures NodeAt(REPORTED, LOW.gpus[0]) == Some(0) && NodeAt(REPORTED, MIDDLE.gpus[0]) == Some(1)
  {
    assert REPORTED[1..][1..] == REPORTED[2..];
  }

  /** The count-based preemption takes the two lowest priorities, which sit on different nodes. */
  lemma {:induction false} VictimsOnTwoNodes()
    ensures KeyedById(TASKS)
    ensures VictimsFor(BackgroundRule, VIEW, WANTED, STATES, WORKER, [LOW, MIDDLE])
    ensures NodeAt(REPORTED, LOW.gpus[0]) == Some(0) && NodeAt(REPORTED, MIDDLE.gpus[0]) == Some(1)
  {
    CandidateOrder(BackgroundRule);
    NothingFree();
    TwoCover();
    WhereTheyRun();
    hide Candidates, Available, ShortestPrefix, Covers, NodeAt, Held;
  }

  // ----- what one node would have needed -----

  lemma {:induction false} FreedOnNodeZero()
    ensures FreedOnNode(LOW, REPORTED, 0, WANTED) == {0}
    ensures FreedOnNode(HIGH, REPORTED, 0, WANTED) == {1}
  {
    assert LOW.gpus[0] == 0 && HIGH.gpus[0] == 1;
    assert REPORTED[1..][0].index == 1;
    assert UsableOnNode(REPORTED, 0, 0, WANTED) && UsableOnNode(REPORTED, 1, 0, WANTED);
  }

  lemma {:induction false} OptionsOnNodeZero()
    ensures var freed := FreedOnNode(MIDDLE, REPORTED, 0, WANTED);
            AllOptions([LOW, MIDDLE, HIGH], REPORTED, 0, WANTED) ==
            [VictimOption(LOW, {0}), VictimOption(MIDDLE, freed), VictimOption(HIGH, {1})]
  {
    FreedOnNodeZero();
    var all := [LOW, MIDDLE, HIGH];
    assert all[..2] == [LOW, MIDDLE] && [LOW, MIDDLE][..1] == [LOW] && [LOW][..0] == [];
    assert AllOptions([LOW], REPORTED, 0, WANTED) == [VictimOption(LOW, {0})];
    assert AllOptions([LOW, MIDDLE], REPORTED, 0, WANTED) ==
           [VictimOption(LOW, {0}), VictimOption(MIDDLE, FreedOnNode(MIDDLE, REPORTED, 0, WANTED))];
  }

  lemma {:induction false} ReleasingFreesNodeZero(p: NodeProblem, freed: set<int>)
    requires p.options == [VictimOption(LOW, {0}), VictimOption(MIDDLE, freed), VictimOption(HIGH, {1})]
    requires p.cap.None? && p.requested == 2
    ensures Sufficient(p, p.options)
  {
    assert p.options[1..] == [VictimOption(MIDDLE, freed), VictimOption(HIGH, {1})];
    assert p.options[1..][1..] == [VictimOption(HIGH, {1})];
    var last := p.options[2..];
    assert last == [VictimOption(HIGH, {1})] && last[1..] == [];
    assert Releasable(p.free, last) == {1} + p.free;
    assert Releasable(p.free, p.options[1..]) == freed + ({1} + p.free);
    assert Releasable(p.free, p.options) == {0} + (freed + ({1} + p.free));
    SubsetSize({0, 1}, Releasable(p.free, p.options));
  }

  /** Node 0 is blocked, lacks GPUs, and its holders free the slots: the search would find victims there. */
  lemma {:induction false} NodeZeroInReach()
    ensures KeyedById(TASKS)
    ensures Blocked(WORKERS, VIEW, WANTED, STATES, 0, 0)
    ensures ShortOfGpus(WORKERS, VIEW, WANTED, STATES, 0, 0)
    ensures HoldersFreeSlots(WORKERS, VIEW, WANTED, STATES, 0, 0)
  {
    CandidateOrder(NumaRule);
    NothingFree();
    OptionsOnNodeZero();
    hide Candidates, Available, AllOptions, OptionsOn, Sufficient, Held;
    var wide := WideProblem(WORKERS, VIEW, WANTED, STATES, 0, 0);
    ReleasingFreesNodeZero(wide, FreedOnNode(MIDDLE, REPORTED, 0, WANTED));
    SomeSubsetSuffices(wide);
    assert REPORTED[0] in REPORTED;
    assert FreeOnNode([], 0) == {};
  }

  /** But the search is not run: whatever an attempt in this state asks for, it is not the node's victims. */
  lemma {:induction false} NodeZeroIsNotProposed(s: Search, route: Route, plan: Option<DispatchPlan>,
                                                 killed: set<TaskId>, asked: seq<Request>)
    requires s.workers == WORKERS && s.options == WANTED && s.before == VIEW && s.states == STATES
    requires KeyedById(TASKS) && Routed(s, route, plan, killed) && Asked(s, route, plan, asked)
    ensures !ProposedNode(route, plan, asked)
  {
    Holdings();
    NoPlan();
    hide Routed, Asked, BestPlan, CrossesNow, InReach, ProposedNode;
    NoPlanAtAll(s);
    ProposesExactly(s, route, plan, killed, asked);
  }

  lemma {:induction false} LimitsHold()
    ensures WithinLimits(WORKER, TASKS)
  {
    Holdings();
    hide OnWorker;
    assert TASKS[0].gpus == [0] && TASKS[1].gpus == [1] && TASKS[2].gpus == [2];
    assert DisjointGpus(TASKS, "c");
    hide DisjointGpus;
    SubsetSize(BackgroundOn(TASKS, "c"), {0, 1, 2});
  }

  /** Nothing is unusual about this state: the rows and every limit are in order. */
  lemma {:induction false} StateIsOrderly()
    ensures ValidWorkers(WORKERS) && RowInvariant(LOW) && RowInvariant(MIDDLE) && RowInvariant(HIGH)
    ensures CapacityInvariant(WORKERS, TASKS)
  {
    LimitsHold();
    hide WithinLimits;
  }
}
