/** Where a queued task can start: `_available_gpus_by_worker`, `_find_plan` and `_plan_is_numa_local`. */
module Placement {
  import opened Models
  import opened Lifecycle
  import opened Capacity
  import opened Queries
  import opened Occupancy
  import opened GpuConditions
  import opened GpuSelection

  /** Everything a placement decision reads besides the task, the configuration and the probe. */
  datatype View = View(
    tasks: TaskTable,
    conditions: map<ConditionKey, ConditionRow>,
    daemon: DaemonConfig,
    now: int)

  type WorkerStates = map<WorkerName, seq<GpuState>>

  datatype DispatchPlan = DispatchPlan(worker: WorkerConfig, gpus: seq<int>)

  ghost predicate ValidStates(states: WorkerStates) {
    forall w | w in states :: DistinctIndexes(states[w])
  }

  function StatesOf(states: WorkerStates, w: WorkerName): seq<GpuState> {
    if w in states then states[w] else []
  }

  function Min(a: int, b: int): int {
    if a <= b then a else b
  }

  function Max(a: int, b: int): int {
    if a >= b then a else b
  }

  // ----- which GPUs qualify -----

  const NO_MEMORY_LIMIT := 999999

  function ConditionFor(daemon: DaemonConfig, o: TaskOptions): GpuCondition {
    GpuCondition(
      if o.maxMemoryUsedMb.Some? then o.maxMemoryUsedMb.value
      else if o.minFreeMemoryMb.Some? then NO_MEMORY_LIMIT
      else daemon.freeMemoryMb,
      if o.maxUtilizationPercent.Some? then o.maxUtilizationPercent.value else daemon.freeUtilizationPercent,
      o.minFreeMemoryMb)
  }

  /** `_gpu_satisfies_task`. */
  predicate Satisfies(v: View, w: WorkerName, g: GpuState, o: TaskOptions) {
    var condition := ConditionFor(v.daemon, o);
    var key := ConditionKey(w, g.index, condition);
    && g.IsFree(condition)
    && (o.minFreeSeconds > 0 ==>
          key in v.conditions && v.conditions[key].freeSince.Some?
            && v.now - v.conditions[key].freeSince.value >= o.minFreeSeconds)
  }

  function Qualifying(states: seq<GpuState>, busy: set<int>, v: View, w: WorkerName, o: TaskOptions): seq<GpuState> {
    if states == [] then []
    else
      (if states[0].index !in busy && Satisfies(v, w, states[0], o) then [states[0]] else [])
      + Qualifying(states[1..], busy, v, w, o)
  }

  lemma {:induction false} QualifyingMembers(states: seq<GpuState>, busy: set<int>, v: View, w: WorkerName,
                                             o: TaskOptions)
    ensures multiset(Qualifying(states, busy, v, w, o)) <= multiset(states)
    ensures forall g :: g in Qualifying(states, busy, v, w, o) <==>
              g in states && g.index !in busy && Satisfies(v, w, g, o)
  {
    if states != [] {
      QualifyingMembers(states[1..], busy, v, w, o);
      assert states == [states[0]] + states[1..];
    }
  }

  /** The GPUs of a worker that a task may be given, best first. */
  ghost function Available(v: View, w: WorkerName, states: seq<GpuState>, o: TaskOptions): seq<GpuState> {
    SortByPreference(Qualifying(states, BusyGpus(v.tasks, w), v, w, o))
  }

  lemma {:induction false} AvailableMembers(v: View, w: WorkerName, states: seq<GpuState>, o: TaskOptions)
    requires DistinctIndexes(states)
    ensures DistinctIndexes(Available(v, w, states, o))
    ensures forall g :: g in Available(v, w, states, o) <==>
              g in states && g.index !in BusyGpus(v.tasks, w) && Satisfies(v, w, g, o)
  {
    var qualifying := Qualifying(states, BusyGpus(v.tasks, w), v, w, o);
    QualifyingMembers(states, BusyGpus(v.tasks, w), v, w, o);
    SubsetIsDistinct(states, Available(v, w, states, o));
    forall g
      ensures g in Available(v, w, states, o) <==> g in qualifying
    {
      assert g in multiset(Available(v, w, states, o)) <==> g in multiset(qualifying);
    }
  }

  ghost function Excluding(v: View, exclude: Option<TaskId>): View {
    v.(tasks := Without(v.tasks, exclude))
  }

  /** `_available_gpus_by_worker`. */
  method AvailableGpusByWorker(workers: seq<WorkerConfig>, v: View, o: TaskOptions, states: WorkerStates,
                               exclude: Option<TaskId>)
    returns (available: map<WorkerName, seq<GpuState>>)
    requires ValidWorkers(workers) && KeyedById(v.tasks)
    ensures forall i | 0 <= i < |workers| && workers[i].enabled ::
              workers[i].name in available &&
              available[workers[i].name] ==
                Available(Excluding(v, exclude), workers[i].name, StatesOf(states, workers[i].name), o)
  {
    var occupied := OccupiedGpus(v.tasks, exclude);
    available := map[];
    for i := 0 to |workers|
      invariant forall k | 0 <= k < i && workers[k].enabled ::
                  workers[k].name in available &&
                  available[workers[k].name] ==
                    Available(Excluding(v, exclude), workers[k].name, StatesOf(states, workers[k].name), o)
    {
      if workers[i].enabled {
        var w := workers[i].name;
        var busy := BusyOf(occupied, w);
        ExclusionKeepsQualifying(StatesOf(states, w), busy, v, exclude, w, o);
        available := available[w := SortByPreference(Qualifying(StatesOf(states, w), busy, v, w, o))];
      }
    }
  }

  lemma {:induction false} ExclusionKeepsQualifying(states: seq<GpuState>, busy: set<int>, v: View,
                                                    exclude: Option<TaskId>, w: WorkerName, o: TaskOptions)
    ensures Qualifying(states, busy, v, w, o) == Qualifying(states, busy, Excluding(v, exclude), w, o)
  {
    if states != [] {
      ExclusionKeepsQualifying(states[1..], busy, v, exclude, w, o);
    }
  }

  // ----- how many GPUs -----

  /** `_elastic_gpu_limit`, with `others` the slots that other tasks hold on the worker. */
  function ElasticLimit(o: TaskOptions, w: WorkerConfig, reported: nat, others: nat): int {
    var wanted := Min(o.requestedGpus, if w.gpus != [] then |w.gpus| else reported);
    var configured := if wanted <= 0 then reported else wanted;
    if w.maxConcurrentTasks.Some? then Min(configured, Max(0, w.maxConcurrentTasks.value - others)) else configured
  }

  function TargetCount(o: TaskOptions, w: WorkerConfig, free: nat, others: nat): int {
    if o.elastic then Min(free, ElasticLimit(o, w, free, others))
    else if free >= o.requestedGpus then o.requestedGpus
    else 0
  }

  function RemainingSlots(w: WorkerConfig, free: nat, used: nat): int {
    if w.maxConcurrentTasks.Some? then Max(0, w.maxConcurrentTasks.value - used) else free
  }

  function Minimum(o: TaskOptions): int {
    if o.elastic then 1 else o.requestedGpus
  }

  /** The size of the set a plan on `w` would get. */
  function PlanSize(o: TaskOptions, w: WorkerConfig, free: nat, used: nat): int {
    Min(TargetCount(o, w, free, used), RemainingSlots(w, free, used))
  }

  /** Enough qualifying GPUs and enough slots for the least the task accepts. */
  ghost predicate HasRoom(o: TaskOptions, w: WorkerConfig, free: nat, used: nat) {
    && free >= Minimum(o)
    && (w.maxConcurrentTasks.Some? ==> w.maxConcurrentTasks.value - used >= Minimum(o))
  }

  /**
   * The counting in `_find_plan` accepts a worker exactly when it has room, and stays within the request and the cap.
   */
  lemma {:induction false} PlanSizeMeansRoom(o: TaskOptions, w: WorkerConfig, free: nat, used: nat)
    requires o.requestedGpus >= 1
    ensures PlanSize(o, w, free, used) >= Minimum(o) <==> HasRoom(o, w, free, used)
    ensures HasRoom(o, w, free, used) ==>
              && 1 <= PlanSize(o, w, free, used) <= Min(free, o.requestedGpus)
              && (!o.elastic ==> PlanSize(o, w, free, used) == o.requestedGpus)
              && (w.maxConcurrentTasks.Some? ==> used + PlanSize(o, w, free, used) <= w.maxConcurrentTasks.value)
  {
  }

  // ----- the plan's key -----

  datatype PlanKey = PlanKey(penalty: int, load: LoadKey, order: int)

  /** Penalty, utilization, memory, then configuration order, then first GPU index. */
  predicate Before(a: PlanKey, b: PlanKey) {
    || a.penalty < b.penalty
    || (a.penalty == b.penalty
        && if SameLoad(a.load, b.load)
           then a.order < b.order || (a.order == b.order && a.load.firstIndex < b.load.firstIndex)
           else Lighter(a.load, b.load))
  }

  predicate SameLoad(a: LoadKey, b: LoadKey) {
    a.averageUtilization == b.averageUtilization && a.maxUtilization == b.maxUtilization
      && a.totalMemory == b.totalMemory
  }

  predicate AllNodesKnown(s: seq<GpuState>) {
    forall i | 0 <= i < |s| :: s[i].numaNode.Some?
  }

  function Nodes(s: seq<GpuState>): set<int> {
    set g | g in s && g.numaNode.Some? :: g.numaNode.value
  }

  function Penalty(s: seq<GpuState>): int {
    if |s| > 1 && (!AllNodesKnown(s) || |Nodes(s)| != 1) then 1 else 0
  }

  function KeyOf(s: seq<GpuState>, order: nat): PlanKey
    requires s != []
  {
    PlanKey(Penalty(s), Load(s), order)
  }

  lemma {:induction false} OneNode(s: seq<GpuState>)
    requires s != []
    ensures AllNodesKnown(s) && |Nodes(s)| == 1 <==> NodeLocal(s)
  {
    assert s[0] in s;
    if NodeLocal(s) {
      var node :| SingleNode(s, node);
      assert Nodes(s) == {node};
    }
    if AllNodesKnown(s) && |Nodes(s)| == 1 {
      var node := s[0].numaNode.value;
      SingletonSet(Nodes(s), node);
      forall i | 0 <= i < |s|
        ensures s[i].numaNode == Some(node)
      {
        assert s[i].numaNode.value in Nodes(s);
      }
      assert SingleNode(s, node);
    }
  }

  lemma SingletonSet<T>(s: set<T>, x: T)
    requires |s| == 1 && x in s
    ensures s == {x}
  {
    if y :| y in s && y != x {
      SubsetSize({x, y}, s);
    }
  }

  /** No other choice of the same size on the same worker has a smaller plan key than the selected set. */
  lemma {:induction false} SelectionHasLeastKey(sel: seq<GpuState>, free: seq<GpuState>, n: nat, order: nat,
                                                q: seq<GpuState>)
    requires 1 <= n <= |free| && BestSet(sel, free, n)
    requires Choice(q, free, n)
    ensures !Before(KeyOf(q, order), KeyOf(sel, order))
  {
    hide Foremost, Load;
    OneNode(sel);
    OneNode(q);
    if n >= 2 && NodeLocal(q) {
      assert NodeFits(free, n);
    }
    if n >= 2 && NodeLocal(sel) {
      assert Choice(sel, free, n);
      assert NodeFits(free, n);
    }
  }

  lemma {:induction false} BeforeIsTransitive(a: PlanKey, b: PlanKey, c: PlanKey)
    requires !Before(a, b) && !Before(b, c)
    ensures !Before(a, c)
  {
  }

  // ----- _find_plan -----

  predicate Targets(o: TaskOptions, w: WorkerConfig) {
    o.targetWorker.None? || o.targetWorker.value == "" || o.targetWorker.value == w.name
  }

  ghost function FreeOn(workers: seq<WorkerConfig>, v: View, o: TaskOptions, states: WorkerStates,
                        i: nat): seq<GpuState>
    requires i < |workers|
  {
    Available(v, workers[i].name, StatesOf(states, workers[i].name), o)
  }

  ghost function SizeOn(workers: seq<WorkerConfig>, v: View, o: TaskOptions, states: WorkerStates, i: nat): int
    requires i < |workers|
  {
    PlanSize(o, workers[i], |FreeOn(workers, v, o, states, i)|, |Held(v.tasks, workers[i].name)|)
  }

  /** The worker is enabled and targeted, is under its background limit, and has enough GPUs and slots. */
  ghost predicate Eligible(workers: seq<WorkerConfig>, v: View, o: TaskOptions, states: WorkerStates, i: nat)
    requires i < |workers|
  {
    && workers[i].enabled
    && Targets(o, workers[i])
    && (o.background ==> |BackgroundOn(v.tasks, workers[i].name)| < workers[i].maxBackgroundTasks)
    && HasRoom(o, workers[i], |FreeOn(workers, v, o, states, i)|, |Held(v.tasks, workers[i].name)|)
  }

  function IndexesOf(s: seq<GpuState>): (r: seq<int>)
    ensures |r| == |s| && forall i | 0 <= i < |s| :: r[i] == s[i].index
  {
    if s == [] then [] else [s[0].index] + IndexesOf(s[1..])
  }

  /** `sel` on worker `i` has the least key over every eligible worker and every choice of its plan's size. */
  ghost predicate LeastPlan(workers: seq<WorkerConfig>, v: View, o: TaskOptions, states: WorkerStates, i: nat,
                            sel: seq<GpuState>)
    requires i < |workers|
  {
    && sel != []
    && Eligible(workers, v, o, states, i)
    && SizeOn(workers, v, o, states, i) >= 1
    && BestSet(sel, FreeOn(workers, v, o, states, i), SizeOn(workers, v, o, states, i))
    && LeastAmong(workers, v, o, states, i, sel, |workers|)
  }

  ghost predicate LeastAmong(workers: seq<WorkerConfig>, v: View, o: TaskOptions, states: WorkerStates, i: nat,
                             sel: seq<GpuState>, upTo: nat)
    requires i < |workers| && upTo <= |workers| && sel != []
  {
    forall j, q | 0 <= j < upTo && Eligible(workers, v, o, states, j) && q != []
      && SizeOn(workers, v, o, states, j) == |q|
                  && Choice(q, FreeOn(workers, v, o, states, j), |q|) ::
      !Before(KeyOf(q, j), KeyOf(sel, i))
  }

  ghost predicate PlanChosen(workers: seq<WorkerConfig>, v: View, o: TaskOptions, states: WorkerStates,
                             plan: DispatchPlan)
  {
    exists i, sel :: 0 <= i < |workers| && LeastPlan(workers, v, o, states, i, sel)
      && plan == DispatchPlan(workers[i], IndexesOf(sel))
  }

  lemma {:induction false} CandidateFits(workers: seq<WorkerConfig>, v: View, o: TaskOptions, states: WorkerStates,
                                         i: nat, sel: seq<GpuState>)
    requires i < |workers| && ValidStates(states) && o.requestedGpus >= 1
    requires Eligible(workers, v, o, states, i) && SizeOn(workers, v, o, states, i) >= 1
    requires BestSet(sel, FreeOn(workers, v, o, states, i), SizeOn(workers, v, o, states, i))
    ensures Fits(workers[i], v.tasks, o, IndexesOf(sel))
  {
    hide Foremost, NodeFits, Lighter, Load;
    var w := workers[i];
    var free := FreeOn(workers, v, o, states, i);
    var gpus := IndexesOf(sel);
    AvailableMembers(v, w.name, StatesOf(states, w.name), o);
    PlanSizeMeansRoom(o, w, |free|, |Held(v.tasks, w.name)|);
    SubsetIsDistinct(free, sel);
    forall g | g in gpus
      ensures g !in BusyGpus(v.tasks, w.name)
    {
      var k :| 0 <= k < |gpus| && gpus[k] == g;
      assert sel[k] in multiset(free);
    }
  }

  /** The scan's state after `upTo` workers: nothing eligible yet, or the least plan so far with its key. */
  ghost predicate BestSoFar(workers: seq<WorkerConfig>, v: View, o: TaskOptions, states: WorkerStates, upTo: nat,
                            plan: Option<DispatchPlan>, best: Option<PlanKey>, at: nat, chosen: seq<GpuState>)
    requires upTo <= |workers|
  {
    && (plan.Some? <==> best.Some?)
    && (plan.None? ==> chosen == [] && forall k | 0 <= k < upTo :: !Eligible(workers, v, o, states, k))
    && (plan.Some? ==>
          && at < upTo && chosen != [] && Eligible(workers, v, o, states, at)
          && SizeOn(workers, v, o, states, at) >= 1
          && BestSet(chosen, FreeOn(workers, v, o, states, at), SizeOn(workers, v, o, states, at))
          && plan.value == DispatchPlan(workers[at], IndexesOf(chosen))
          && best.value == KeyOf(chosen, at)
          && LeastAmong(workers, v, o, states, at, chosen, upTo))
  }

  lemma {:induction false} SkippingKeepsBest(workers: seq<WorkerConfig>, v: View, o: TaskOptions, states: WorkerStates,
                                             i: nat,
                                             plan: Option<DispatchPlan>, best: Option<PlanKey>, at: nat,
                                             chosen: seq<GpuState>)
    requires i < |workers| && !Eligible(workers, v, o, states, i)
    requires BestSoFar(workers, v, o, states, i, plan, best, at, chosen)
    ensures BestSoFar(workers, v, o, states, i + 1, plan, best, at, chosen)
  {
    if plan.Some? {
      LeastSkips(workers, v, o, states, i, at, chosen);
    }
  }

  lemma {:induction false} LeastSkips(workers: seq<WorkerConfig>, v: View, o: TaskOptions, states: WorkerStates, i: nat,
                                      at: nat, chosen: seq<GpuState>)
    requires i < |workers| && !Eligible(workers, v, o, states, i)
    requires at < |workers| && chosen != [] && LeastAmong(workers, v, o, states, at, chosen, i)
    ensures LeastAmong(workers, v, o, states, at, chosen, i + 1)
  {
    hide Eligible, SizeOn, FreeOn, Choice, KeyOf, Before;
    forall j, q | 0 <= j < i + 1 && Eligible(workers, v, o, states, j) && q != []
      && SizeOn(workers, v, o, states, j) == |q|
                  && Choice(q, FreeOn(workers, v, o, states, j), |q|)
      ensures !Before(KeyOf(q, j), KeyOf(chosen, at))
    {
      assert j < i;
    }
  }

  /** Keeping the smaller of the best so far and the new worker's candidate keeps it least. */
  lemma {:induction false} LeastExtends(workers: seq<WorkerConfig>, v: View, o: TaskOptions, states: WorkerStates,
                                        i: nat, sel: seq<GpuState>,
                                        wasAt: nat, was: seq<GpuState>, at: nat, chosen: seq<GpuState>)
    requires i < |workers| && sel != []
    requires 1 <= SizeOn(workers, v, o, states, i) <= |FreeOn(workers, v, o, states, i)|
    requires BestSet(sel, FreeOn(workers, v, o, states, i), SizeOn(workers, v, o, states, i))
    requires was != [] ==> wasAt < i && LeastAmong(workers, v, o, states, wasAt, was, i)
    requires was == [] ==> forall k | 0 <= k < i :: !Eligible(workers, v, o, states, k)
    requires if was == [] || Before(KeyOf(sel, i), KeyOf(was, wasAt))
             then at == i && chosen == sel
             else at == wasAt && chosen == was
    ensures LeastAmong(workers, v, o, states, at, chosen, i + 1)
  {
    forall j, q | 0 <= j < i + 1 && Eligible(workers, v, o, states, j) && q != []
      && SizeOn(workers, v, o, states, j) == |q|
                  && Choice(q, FreeOn(workers, v, o, states, j), |q|)
      ensures !Before(KeyOf(q, j), KeyOf(chosen, at))
    {
      if j == i {
        SelectionHasLeastKey(sel, FreeOn(workers, v, o, states, i), |q|, i, q);
        if chosen == was && was != [] {
          BeforeIsTransitive(KeyOf(q, j), KeyOf(sel, i), KeyOf(was, wasAt));
        }
      } else if at == i {
        NotBeforeBoth(KeyOf(sel, i), KeyOf(was, wasAt));
        BeforeIsTransitive(KeyOf(q, j), KeyOf(was, wasAt), KeyOf(sel, i));
      }
    }
  }

  lemma {:induction false} NotBeforeBoth(a: PlanKey, b: PlanKey)
    requires Before(a, b)
    ensures !Before(b, a)
  {
  }

  /** One worker's candidate, if it has room: the set `_select_gpu_set` picks there. */
  method Candidate(workers: seq<WorkerConfig>, v: View, o: TaskOptions, states: WorkerStates, i: nat,
                   free: seq<GpuState>, used: nat)
    returns (selected: seq<GpuState>)
    requires i < |workers| && ValidStates(states) && o.requestedGpus >= 1
    requires free == FreeOn(workers, v, o, states, i) && used == |Held(v.tasks, workers[i].name)|
    ensures selected != [] <==> HasRoom(o, workers[i], |free|, used)
    ensures selected != [] ==>
              1 <= SizeOn(workers, v, o, states, i) <= |free|
                && BestSet(selected, free, SizeOn(workers, v, o, states, i))
  {
    var size := PlanSize(o, workers[i], |free|, used);
    PlanSizeMeansRoom(o, workers[i], |free|, used);
    selected := [];
    if size >= Minimum(o) {
      AvailableMembers(v, workers[i].name, StatesOf(states, workers[i].name), o);
      selected := SelectGpuSet(free, size);
    }
  }

  method FindPlan(workers: seq<WorkerConfig>, v: View, o: TaskOptions, states: WorkerStates)
    returns (plan: Option<DispatchPlan>)
    requires ValidWorkers(workers) && ValidStates(states) && KeyedById(v.tasks)
    requires o.requestedGpus >= 1
    ensures plan.None? <==> forall i | 0 <= i < |workers| :: !Eligible(workers, v, o, states, i)
    ensures plan.Some? ==> PlanChosen(workers, v, o, states, plan.value)
    ensures plan.Some? ==> plan.value.worker in workers && Fits(plan.value.worker, v.tasks, o, plan.value.gpus)
  {
    var available := AvailableGpusByWorker(workers, v, o, states, None);
    var slots := RunningGpuSlotsByWorker(v.tasks);
    var backgrounds := RunningBackgroundCountsByWorker(v.tasks);
    assert Excluding(v, None) == v;
    plan := None;
    var best: Option<PlanKey> := None;
    ghost var at: nat := 0;
    ghost var chosen: seq<GpuState> := [];
    for i := 0 to |workers|
      invariant BestSoFar(workers, v, o, states, i, plan, best, at, chosen)
    {
      var w := workers[i];
      var selected: seq<GpuState> := [];
      if w.enabled && Targets(o, w) && (o.background ==> CountOf(backgrounds, w.name) < w.maxBackgroundTasks) {
        selected := Candidate(workers, v, o, states, i, available[w.name], CountOf(slots, w.name));
      }
      assert selected != [] <==> Eligible(workers, v, o, states, i);
      if selected == [] {
        SkippingKeepsBest(workers, v, o, states, i, plan, best, at, chosen);
      } else {
        ghost var wasAt, was := at, chosen;
        if best.None? || Before(KeyOf(selected, i), best.value) {
          plan, best := Some(DispatchPlan(w, IndexesOf(selected))), Some(KeyOf(selected, i));
          at, chosen := i, selected;
        }
        LeastExtends(workers, v, o, states, i, selected, wasAt, was, at, chosen);
      }
    }
    if plan.Some? {
      CandidateFits(workers, v, o, states, at, chosen);
      assert LeastPlan(workers, v, o, states, at, chosen);
    }
  }

  // ----- NUMA locality -----

  /** The `state_by_index` dictionary lookup. */
  function StateAt(states: seq<GpuState>, index: int): (r: Option<GpuState>)
    ensures r.Some? ==> r.value in states && r.value.index == index
    ensures r.None? ==> forall g | g in states :: g.index != index
  {
    if states == [] then None
    else if states[0].index == index then Some(states[0])
    else StateAt(states[1..], index)
  }

  function NodeAt(states: seq<GpuState>, index: int): Option<int> {
    var s := StateAt(states, index);
    if s.Some? then s.value.numaNode else None
  }

  /** `_plan_is_numa_local`. */
  predicate PlanIsNumaLocal(o: TaskOptions, plan: DispatchPlan, states: WorkerStates) {
    var reported := StatesOf(states, plan.worker.name);
    o.requestedGpus <= 1 ||
    (&& (forall i | 0 <= i < |plan.gpus| :: NodeAt(reported, plan.gpus[i]).Some?)
     && |set i | 0 <= i < |plan.gpus| :: NodeAt(reported, plan.gpus[i])| == 1)
  }

  lemma {:induction false} LocalPlanIsLocalSet(o: TaskOptions, w: WorkerConfig, sel: seq<GpuState>,
                                               states: WorkerStates)
    requires ValidStates(states) && o.requestedGpus > 1 && sel != []
    requires forall g | g in sel :: g in StatesOf(states, w.name)
    ensures PlanIsNumaLocal(o, DispatchPlan(w, IndexesOf(sel)), states) <==> NodeLocal(sel)
  {
    var reported := StatesOf(states, w.name);
    var gpus := IndexesOf(sel);
    forall i | 0 <= i < |sel|
      ensures NodeAt(reported, gpus[i]) == sel[i].numaNode
    {
      assert sel[i] in reported;
      var j :| 0 <= j < |reported| && reported[j] == sel[i];
      var s := StateAt(reported, gpus[i]);
      var k :| 0 <= k < |reported| && reported[k] == s.value;
      assert j == k;
    }
    var nodes := set i | 0 <= i < |gpus| :: NodeAt(reported, gpus[i]);
    assert NodeAt(reported, gpus[0]) in nodes;
    if NodeLocal(sel) {
      var node :| SingleNode(sel, node);
      assert nodes == {Some(node)};
    }
    if PlanIsNumaLocal(o, DispatchPlan(w, gpus), states) {
      SingletonSet(nodes, NodeAt(reported, gpus[0]));
      assert SingleNode(sel, sel[0].numaNode.value) by {
        forall i | 0 <= i < |sel|
          ensures sel[i].numaNode == sel[0].numaNode
        {
          assert NodeAt(reported, gpus[i]) in nodes;
        }
      }
    }
  }

  /** The chosen set behind a plan, and what the plan's locality says of it. */
  lemma {:induction false} ChosenSet(workers: seq<WorkerConfig>, v: View, o: TaskOptions, states: WorkerStates,
                                     plan: DispatchPlan)
    returns (i: nat, sel: seq<GpuState>)
    requires ValidStates(states)
    requires o.requestedGpus > 1 && !o.elastic
    requires PlanChosen(workers, v, o, states, plan)
    ensures i < |workers| && LeastPlan(workers, v, o, states, i, sel)
    ensures Choice(sel, FreeOn(workers, v, o, states, i), o.requestedGpus)
    ensures PlanIsNumaLocal(o, plan, states) <==> NodeLocal(sel)
  {
    var k, chosen :| 0 <= k < |workers| && LeastPlan(workers, v, o, states, k, chosen)
      && plan == DispatchPlan(workers[k], IndexesOf(chosen));
    i, sel := k, chosen;
    var free := FreeOn(workers, v, o, states, i);
    AvailableMembers(v, workers[i].name, StatesOf(states, workers[i].name), o);
    PlanSizeMeansRoom(o, workers[i], |free|, |Held(v.tasks, workers[i].name)|);
    hide PlanIsNumaLocal, LeastAmong, Held;
    forall g | g in sel
      ensures g in StatesOf(states, workers[i].name)
    {
      assert g in multiset(free);
    }
    LocalPlanIsLocalSet(o, workers[i], sel, states);
  }

  /** A least plan crosses nodes only if no eligible worker has a complete allocation within one. */
  lemma {:induction false} LeastIsLocal(workers: seq<WorkerConfig>, v: View, o: TaskOptions, states: WorkerStates,
                                        i: nat, sel: seq<GpuState>, j: nat)
    requires i < |workers| && j < |workers| && o.requestedGpus > 1 && !o.elastic
    requires LeastPlan(workers, v, o, states, i, sel) && |sel| > 1
    requires Eligible(workers, v, o, states, j) && NodeFits(FreeOn(workers, v, o, states, j), o.requestedGpus)
    ensures NodeLocal(sel)
  {
    hide Available, BestSet;
    var q :| Choice(q, FreeOn(workers, v, o, states, j), o.requestedGpus) && NodeLocal(q);
    PlanSizeMeansRoom(o, workers[j], |FreeOn(workers, v, o, states, j)|, |Held(v.tasks, workers[j].name)|);
    assert !Before(KeyOf(q, j), KeyOf(sel, i));
    hide LeastPlan, Eligible, Load, NodeLocal, SizeOn, FreeOn, Choice, NodeFits;
    OneNode(q);
    OneNode(sel);
  }

  /**
   * The plan of a multi-GPU task that is not elastic lies within one NUMA node exactly when some eligible
   * worker has a complete allocation within one.
   */
  lemma {:induction false} PlanIsLocalWhenPossible(workers: seq<WorkerConfig>, v: View, o: TaskOptions,
                                                   states: WorkerStates, plan: DispatchPlan)
    requires ValidStates(states)
    requires o.requestedGpus > 1 && !o.elastic
    requires PlanChosen(workers, v, o, states, plan)
    ensures PlanIsNumaLocal(o, plan, states) <==>
            exists j :: 0 <= j < |workers| && Eligible(workers, v, o, states, j)
              && NodeFits(FreeOn(workers, v, o, states, j), o.requestedGpus)
  {
    var i, sel := ChosenSet(workers, v, o, states, plan);
    assert Eligible(workers, v, o, states, i);
    hide LeastPlan, Eligible, Choice, PlanIsNumaLocal, PlanChosen, FreeOn;
    if NodeLocal(sel) {
      assert NodeFits(FreeOn(workers, v, o, states, i), o.requestedGpus);
    }
    if j :|
      && 0 <= j < |workers|
      && Eligible(workers, v, o, states, j)
      && NodeFits(FreeOn(workers, v, o, states, j), o.requestedGpus)
    {
      LeastIsLocal(workers, v, o, states, i, sel, j);
    }
  }

  lemma {:induction false} ChosenGpusSatisfy(workers: seq<WorkerConfig>, v: View, o: TaskOptions, states: WorkerStates,
                                             plan: DispatchPlan, g: int)
    returns (gpu: GpuState)
    requires ValidStates(states)
    requires PlanChosen(workers, v, o, states, plan)
    requires g in plan.gpus
    ensures gpu.index == g && gpu in StatesOf(states, plan.worker.name)
    ensures Satisfies(v, plan.worker.name, gpu, o)
  {
    hide Foremost, NodeFits, Lighter, Load, Satisfies, LeastAmong;
    var i, sel :| 0 <= i < |workers| && LeastPlan(workers, v, o, states, i, sel)
      && plan == DispatchPlan(workers[i], IndexesOf(sel));
    AvailableMembers(v, workers[i].name, StatesOf(states, workers[i].name), o);
    var k :| 0 <= k < |plan.gpus| && plan.gpus[k] == g;
    gpu := sel[k];
    assert sel[k] in multiset(FreeOn(workers, v, o, states, i));
  }

  /** A GPU given to a task with `min_free_seconds` was recorded free, without interruption, for that long. */
  lemma {:induction false} ChosenGpusWereFree(workers: seq<WorkerConfig>, v: View, o: TaskOptions, states: WorkerStates,
                                              plan: DispatchPlan,
                                              history: History, g: int)
    requires ValidStates(states)
    requires Consistent(v.conditions, history)
    requires PlanChosen(workers, v, o, states, plan)
    requires o.minFreeSeconds > 0 && g in plan.gpus
    ensures var key := ConditionKey(plan.worker.name, g, ConditionFor(v.daemon, o));
            key in history && FreeFor(history[key], o.minFreeSeconds, v.now)
  {
    var gpu := ChosenGpusSatisfy(workers, v, o, states, plan, g);
    FreeSinceMeasuresRun(v.conditions, history, ConditionKey(plan.worker.name, g, ConditionFor(v.daemon, o)),
      o.minFreeSeconds, v.now);
  }
}
