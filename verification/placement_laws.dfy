/** Which GPUs count as free, how many a task gets and which plan wins, said of the tasks, thresholds and GPUs. */
module PlacementLaws {
  import opened Models
  import opened Lifecycle
  import opened Capacity
  import opened GpuConditions
  import opened GpuSelection
  import opened SelectionLaws
  import opened Placement

  // ----- free GPUs -----

  /** The most memory a free GPU may have in use. */
  ghost function MemoryAllowed(o: TaskOptions, daemon: DaemonConfig): int {
    if o.maxMemoryUsedMb.Some? then o.maxMemoryUsedMb.value
    else if o.minFreeMemoryMb.Some? then 999999
    else daemon.freeMemoryMb
  }

  ghost function UtilizationAllowed(o: TaskOptions, daemon: DaemonConfig): int {
    if o.maxUtilizationPercent.Some? then o.maxUtilizationPercent.value else daemon.freeUtilizationPercent
  }

  /** The total is known, and what is not in use is as much; a negative difference counts as 0. */
  ghost predicate LeavesFree(g: GpuState, amount: int) {
    g.memoryTotalMb > 0 && (amount <= 0 || g.memoryUsedMb + amount <= g.memoryTotalMb)
  }

  ghost predicate MeetsThresholds(g: GpuState, o: TaskOptions, daemon: DaemonConfig) {
    && g.memoryUsedMb <= MemoryAllowed(o, daemon)
    && g.utilizationPercent <= UtilizationAllowed(o, daemon)
    && (o.minFreeMemoryMb.Some? ==> LeavesFree(g, o.minFreeMemoryMb.value))
  }

  ghost predicate HeldByNobody(tasks: TaskTable, w: WorkerName, index: int) {
    forall t | t in tasks && tasks[t].status == Running && tasks[t].worker == Some(w) :: index !in tasks[t].gpus
  }

  /** Recorded as meeting just these thresholds, without interruption, for as long as the task asks. */
  ghost predicate FreeLongEnough(history: History, w: WorkerName, index: int, o: TaskOptions, daemon: DaemonConfig,
                                 now: int)
  {
    var key := ConditionKey(w, index,
      GpuCondition(MemoryAllowed(o, daemon), UtilizationAllowed(o, daemon), o.minFreeMemoryMb));
    key in history && exists k: nat :: RunOfFree(history[key], k) && history[key][k].at + o.minFreeSeconds <= now
  }

  /** From its `k`-th entry to the last all observations are free, and the one before is not. */
  ghost predicate RunOfFree(observations: seq<Observation>, k: nat) {
    && k < |observations|
    && (forall i | k <= i < |observations| :: observations[i].free)
    && (k > 0 ==> !observations[k - 1].free)
  }

  lemma {:induction false} FreeMeansThresholds(g: GpuState, o: TaskOptions, daemon: DaemonConfig)
    ensures g.IsFree(ConditionFor(daemon, o)) <==> MeetsThresholds(g, o, daemon)
  {
  }

  lemma {:induction false} AgeMeansRun(history: seq<Observation>, seconds: int, now: int)
    ensures FreeFor(history, seconds, now) <==> exists k: nat :: RunOfFree(history, k) && history[k].at + seconds <= now
  {
    if k: nat :| FreeRunFrom(history, k) && now - history[k].at >= seconds {
      assert RunOfFree(history, k);
    }
    if k: nat :| RunOfFree(history, k) && history[k].at + seconds <= now {
      assert FreeRunFrom(history, k);
    }
  }

  lemma {:induction false} BusyMeansHeld(tasks: TaskTable, w: WorkerName, index: int)
    ensures index !in BusyGpus(tasks, w) <==> HeldByNobody(tasks, w, index)
  {
    if t :| t in tasks && tasks[t].status == Running && tasks[t].worker == Some(w) && index in tasks[t].gpus {
      assert t in OnWorker(tasks, w);
    }
  }

  /**
   * A GPU is offered to a task if and only if it is reported, no running task of the worker holds it, it meets
   * the thresholds, and, for a task with `min_free_seconds`, has met them for that long.
   */
  lemma {:induction false} OfferedExactly(v: View, w: WorkerName, states: seq<GpuState>, o: TaskOptions,
                                          history: History, g: GpuState)
    requires DistinctIndexes(states)
    requires o.minFreeSeconds > 0 ==> Consistent(v.conditions, history)
    ensures g in Available(v, w, states, o) <==>
            && g in states
            && HeldByNobody(v.tasks, w, g.index)
            && MeetsThresholds(g, o, v.daemon)
            && (o.minFreeSeconds > 0 ==> FreeLongEnough(history, w, g.index, o, v.daemon, v.now))
  {
    AvailableMembers(v, w, states, o);
    BusyMeansHeld(v.tasks, w, g.index);
    FreeMeansThresholds(g, o, v.daemon);
    if o.minFreeSeconds > 0 {
      var key := ConditionKey(w, g.index, ConditionFor(v.daemon, o));
      FreeSinceMeasuresRun(v.conditions, history, key, o.minFreeSeconds, v.now);
      if key in history {
        AgeMeansRun(history[key], o.minFreeSeconds, v.now);
      }
    }
    hide Available, BusyGpus, HeldByNobody, MeetsThresholds, Consistent, FreeFor, RunOfFree;
  }

  /** So every GPU of a plan is reported by its worker, held by nobody, and free enough for long enough. */
  lemma {:induction false} PlanGpusAreFree(workers: seq<WorkerConfig>, v: View, o: TaskOptions, states: WorkerStates,
                                           plan: DispatchPlan, history: History, index: int)
    returns (g: GpuState)
    requires ValidStates(states) && PlanChosen(workers, v, o, states, plan) && index in plan.gpus
    requires o.minFreeSeconds > 0 ==> Consistent(v.conditions, history)
    ensures g.index == index && plan.worker.name in states && g in states[plan.worker.name]
    ensures HeldByNobody(v.tasks, plan.worker.name, index) && MeetsThresholds(g, o, v.daemon)
    ensures o.minFreeSeconds > 0 ==> FreeLongEnough(history, plan.worker.name, index, o, v.daemon, v.now)
  {
    var i, sel :| 0 <= i < |workers| && LeastPlan(workers, v, o, states, i, sel)
      && plan == DispatchPlan(workers[i], IndexesOf(sel));
    var k :| 0 <= k < |plan.gpus| && plan.gpus[k] == index;
    g := sel[k];
    var reported := StatesOf(states, workers[i].name);
    assert g in multiset(FreeOn(workers, v, o, states, i));
    OfferedExactly(v, workers[i].name, reported, o, history, g);
  }

  // ----- how many GPUs -----

  /** The limit is the most GPUs that request, allowlist (or, without one, the reported GPUs) and cap all allow. */
  lemma ElasticLimitExactly(o: TaskOptions, w: WorkerConfig, reported: nat, others: nat, n: nat)
    requires o.requestedGpus >= 1 && reported >= 1 && n >= 1
    ensures n <= ElasticLimit(o, w, reported, others) <==>
            && n <= o.requestedGpus
            && n <= (if w.gpus == [] then reported else |w.gpus|)
            && (w.maxConcurrentTasks.Some? ==> others + n <= w.maxConcurrentTasks.value)
  {
  }

  /** An elastic task starts with the most GPUs that are free and that all of these allow. */
  lemma ElasticStartsAtMost(o: TaskOptions, w: WorkerConfig, free: nat, used: nat, n: nat)
    requires o.requestedGpus >= 1 && o.elastic && n >= 1
    ensures n <= PlanSize(o, w, free, used) <==>
            && n <= free && n <= o.requestedGpus
            && (w.gpus != [] ==> n <= |w.gpus|)
            && (w.maxConcurrentTasks.Some? ==> used + n <= w.maxConcurrentTasks.value)
  {
  }

  /** The worker a task names is the only one it may use; without a name it may use any. */
  lemma TargetsExactly(o: TaskOptions, w: WorkerConfig)
    requires w.name != ""
    ensures Targets(o, w) <==> o.targetWorker in {None, Some(""), Some(w.name)}
  {
  }

  // ----- which plan -----

  ghost predicate Together(s: seq<GpuState>) {
    |s| <= 1 || NodeLocal(s)
  }

  lemma {:induction false} PenaltyMeans(s: seq<GpuState>)
    requires s != []
    ensures Penalty(s) == if Together(s) then 0 else 1
  {
    OneNode(s);
  }

  /** Comparing averages is comparing cross products. */
  lemma AveragesCross(a: int, n: nat, b: int, m: nat)
    requires n > 0 && m > 0
    ensures a as real / n as real < b as real / m as real <==> a * m < b * n
    ensures a as real / n as real == b as real / m as real <==> a * m == b * n
  {
    var x, y := a as real / n as real, b as real / m as real;
    var p, q := n as real, m as real;
    assert x * p == a as real && y * q == b as real;
    assert (a * m) as real == x * (p * q);
    assert (b * n) as real == y * (p * q);
    Scaled(x, y, p * q);
  }

  lemma Scaled(x: real, y: real, k: real)
    requires k > 0.0
    ensures x < y <==> x * k < y * k
    ensures x == y <==> x * k == y * k
  {
    if x < y {
      assert (y - x) * k > 0.0;
    } else if y < x {
      assert (x - y) * k > 0.0;
    }
  }

  /**
   * Of two plans' keys, as numbers: a set on one node comes before one that is not, then the lower average
   * utilization, then the less busy busiest GPU, then less memory in use, then the earlier configured worker,
   * then the lower index.
   */
  lemma {:induction false} NotBeforeMeans(r: seq<GpuState>, i: nat, q: seq<GpuState>, j: nat, a: GpuState, b: GpuState,
                                          c: GpuState, d: GpuState)
    requires r != [] && q != [] && !Before(KeyOf(q, j), KeyOf(r, i))
    requires Busiest(a, r) && Busiest(b, q) && Lowest(c, r) && Lowest(d, q)
    ensures Together(q) ==> Together(r)
    ensures (Together(q) <==> Together(r)) ==>
              var u, v := TotalUtilization(r) * |q|, TotalUtilization(q) * |r|;
              u <= v && (u == v ==>
                && a.utilizationPercent <= b.utilizationPercent
                && (a.utilizationPercent == b.utilizationPercent ==>
                      && TotalMemory(r) <= TotalMemory(q)
                      && (TotalMemory(r) == TotalMemory(q) ==> i <= j && (i == j ==> c.index <= d.index))))
  {
    PenaltyMeans(r);
    PenaltyMeans(q);
    AveragesCross(TotalUtilization(r), |r|, TotalUtilization(q), |q|);
    var w := MaxIsBusiest(r);
    var x := MaxIsBusiest(q);
    var y := FirstIsLowest(r);
    var z := FirstIsLowest(q);
    hide Together, Penalty, TotalUtilization, TotalMemory, MaxUtilization, FirstIndex;
  }

  /** No set of its size on any eligible worker comes before the chosen one in this order. */
  lemma {:induction false} PlanIsFirst(workers: seq<WorkerConfig>, v: View, o: TaskOptions, states: WorkerStates,
                                       i: nat, r: seq<GpuState>, j: nat, q: seq<GpuState>, a: GpuState, b: GpuState,
                                       c: GpuState, d: GpuState)
    requires i < |workers| && LeastPlan(workers, v, o, states, i, r)
    requires j < |workers| && Eligible(workers, v, o, states, j)
    requires q != [] && |q| == SizeOn(workers, v, o, states, j) && Choice(q, FreeOn(workers, v, o, states, j), |q|)
    requires Busiest(a, r) && Busiest(b, q) && Lowest(c, r) && Lowest(d, q)
    ensures Together(q) ==> Together(r)
    ensures (Together(q) <==> Together(r)) ==>
              var u, v := TotalUtilization(r) * |q|, TotalUtilization(q) * |r|;
              u <= v && (u == v ==>
                && a.utilizationPercent <= b.utilizationPercent
                && (a.utilizationPercent == b.utilizationPercent ==>
                      && TotalMemory(r) <= TotalMemory(q)
                      && (TotalMemory(r) == TotalMemory(q) ==> i <= j && (i == j ==> c.index <= d.index))))
  {
    hide BestSet, Eligible, FreeOn, SizeOn, Before, KeyOf;
    NotBeforeMeans(r, i, q, j, a, b, c, d);
  }

  lemma {:induction false} LeastIsChoice(workers: seq<WorkerConfig>, v: View, o: TaskOptions, states: WorkerStates,
                                         i: nat, r: seq<GpuState>)
    requires i < |workers| && o.requestedGpus >= 1 && LeastPlan(workers, v, o, states, i, r)
    ensures |r| == SizeOn(workers, v, o, states, i) && Choice(r, FreeOn(workers, v, o, states, i), |r|)
  {
    hide Foremost, LeastAmong;
    PlanSizeMeansRoom(o, workers[i], |FreeOn(workers, v, o, states, i)|, |Held(v.tasks, workers[i].name)|);
  }

  lemma EqualKeys(a: PlanKey, b: PlanKey)
    requires !Before(a, b) && !Before(b, a)
    ensures a.order == b.order
  {
  }

  /** Whatever the state, the plan is determined: worker, GPUs and their order. */
  lemma {:induction false} PlanIsUnique(workers: seq<WorkerConfig>, v: View, o: TaskOptions, states: WorkerStates,
                                        p: DispatchPlan, q: DispatchPlan)
    requires ValidStates(states) && o.requestedGpus >= 1
    requires PlanChosen(workers, v, o, states, p) && PlanChosen(workers, v, o, states, q)
    ensures p == q
  {
    var i, r :| 0 <= i < |workers| && LeastPlan(workers, v, o, states, i, r)
      && p == DispatchPlan(workers[i], IndexesOf(r));
    var j, s :| 0 <= j < |workers| && LeastPlan(workers, v, o, states, j, s)
      && q == DispatchPlan(workers[j], IndexesOf(s));
    LeastIsChoice(workers, v, o, states, i, r);
    LeastIsChoice(workers, v, o, states, j, s);
    hide BestSet, Eligible, FreeOn, SizeOn, Before, KeyOf, Choice;
    EqualKeys(KeyOf(r, i), KeyOf(s, j));
    OrderOf(r, i);
    OrderOf(s, j);
    DistinctFree(workers, v, o, states, i);
    SelectionIsUnique(r, s, FreeOn(workers, v, o, states, i), SizeOn(workers, v, o, states, i));
  }

  lemma OrderOf(s: seq<GpuState>, i: nat)
    requires s != []
    ensures KeyOf(s, i).order == i
  {
  }

  lemma {:induction false} DistinctFree(workers: seq<WorkerConfig>, v: View, o: TaskOptions, states: WorkerStates,
                                        i: nat)
    requires ValidStates(states) && i < |workers|
    ensures DistinctIndexes(FreeOn(workers, v, o, states, i))
  {
    AvailableMembers(v, workers[i].name, StatesOf(states, workers[i].name), o);
  }

  // ----- plans within one node -----

  /** The probe shows all these GPUs on this node. */
  ghost predicate AllOn(gpus: seq<int>, reported: seq<GpuState>, node: int) {
    forall index | index in gpus :: exists g :: g in reported && g.index == index && g.numaNode == Some(node)
  }

  /** A plan of a task for several GPUs counts as local if and only if the probe shows all of them on one node. */
  lemma {:induction false} LocalExactly(o: TaskOptions, plan: DispatchPlan, states: WorkerStates)
    requires ValidStates(states) && o.requestedGpus > 1 && plan.gpus != []
    ensures PlanIsNumaLocal(o, plan, states) <==>
            exists node :: AllOn(plan.gpus, StatesOf(states, plan.worker.name), node)
  {
    var reported := StatesOf(states, plan.worker.name);
    var nodes := set i | 0 <= i < |plan.gpus| :: NodeAt(reported, plan.gpus[i]);
    assert NodeAt(reported, plan.gpus[0]) in nodes;
    forall index, node: int
      ensures NodeAt(reported, index) == Some(node) <==>
              exists g :: g in reported && g.index == index && g.numaNode == Some(node)
    {
      NodeIsReported(reported, index, node);
    }
    hide NodeAt;
    if PlanIsNumaLocal(o, plan, states) {
      SingletonSet(nodes, NodeAt(reported, plan.gpus[0]));
      forall index | index in plan.gpus
        ensures NodeAt(reported, index) == NodeAt(reported, plan.gpus[0])
      {
        var i :| 0 <= i < |plan.gpus| && plan.gpus[i] == index;
        assert NodeAt(reported, plan.gpus[i]) in nodes;
      }
      assert AllOn(plan.gpus, reported, NodeAt(reported, plan.gpus[0]).value);
    }
    if node :| AllOn(plan.gpus, reported, node) {
      assert forall i | 0 <= i < |plan.gpus| :: plan.gpus[i] in plan.gpus;
      assert nodes == {Some(node)};
    }
  }

  lemma {:induction false} NodeIsReported(reported: seq<GpuState>, index: int, node: int)
    requires DistinctIndexes(reported)
    ensures NodeAt(reported, index) == Some(node) <==>
            exists g :: g in reported && g.index == index && g.numaNode == Some(node)
  {
    if g :| g in reported && g.index == index && g.numaNode == Some(node) {
      var s := StateAt(reported, index);
      var i :| 0 <= i < |reported| && reported[i] == g;
      var k :| 0 <= k < |reported| && reported[k] == s.value;
      assert i == k;
    }
  }
}
