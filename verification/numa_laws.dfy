/** Which victims the NUMA search prefers, said of the victims themselves. */
module NumaLaws {
  import opened Models
  import opened Lifecycle
  import opened Capacity
  import opened Queries
  import opened GpuSelection
  import opened Placement
  import opened Victims
  import opened VictimLaws
  import opened NumaPreemption

  // ----- what the key measures -----

  lemma MeasuresOfOne(x: VictimOption)
    ensures ReleasedCount([x]) == |x.victim.gpus| && PrioritySum([x]) == x.victim.options.priority
    ensures RegularCount([x]) == if x.victim.options.background then 0 else 1
  {
    assert [x][1..] == [];
  }

  /** With `MeasuresOfOne`: each of these adds up one amount per victim. */
  lemma {:induction false} MeasuresAdd(a: seq<VictimOption>, b: seq<VictimOption>)
    ensures ReleasedCount(a + b) == ReleasedCount(a) + ReleasedCount(b)
    ensures PrioritySum(a + b) == PrioritySum(a) + PrioritySum(b)
    ensures RegularCount(a + b) == RegularCount(a) + RegularCount(b)
  {
    if a == [] {
      assert a + b == b;
    } else {
      assert (a + b)[1..] == a[1..] + b;
      MeasuresAdd(a[1..], b);
    }
  }

  /** Nobody in `sel` started earlier. */
  ghost predicate Earliest(t: Task, sel: seq<VictimOption>) {
    (exists x :: x in sel && x.victim == t) && forall x | x in sel :: StartKey(t) <= StartKey(x.victim)
  }

  lemma {:induction false} OldestIsEarliest(sel: seq<VictimOption>) returns (t: Task)
    requires sel != []
    ensures Earliest(t, sel) && OldestStart(sel) == StartKey(t)
  {
    t := sel[0].victim;
    assert sel == [sel[0]] + sel[1..] && sel[0] in sel;
    if |sel| > 1 {
      var other := OldestIsEarliest(sel[1..]);
      if StartKey(other) < StartKey(t) {
        t := other;
      }
    }
  }

  // ----- picks as sets -----

  lemma {:induction false} ChosenConcat(options: seq<VictimOption>, a: seq<nat>, b: seq<nat>)
    requires forall i | 0 <= i < |a| :: a[i] < |options|
    requires forall i | 0 <= i < |b| :: b[i] < |options|
    ensures forall i | 0 <= i < |a + b| :: (a + b)[i] < |options|
    ensures Chosen(options, a + b) == Chosen(options, a) + Chosen(options, b)
  {
    if a == [] {
      assert a + b == b;
    } else {
      assert (a + b)[1..] == a[1..] + b;
      ChosenConcat(options, a[1..], b);
    }
  }

  lemma {:induction false} ChosenAt(options: seq<VictimOption>, pick: seq<nat>, k: nat)
    requires forall i | 0 <= i < |pick| :: pick[i] < |options|
    requires k < |pick|
    ensures Chosen(options, pick)[k] == options[pick[k]]
  {
    if k > 0 {
      ChosenAt(options, pick[1..], k - 1);
    }
  }

  /** What one member of a pick contributes. */
  lemma {:induction false} DropMeasures(options: seq<VictimOption>, pick: seq<nat>, k: nat)
    requires Subset(pick, 0, |options|) && k < |pick|
    ensures Subset(Drop(pick, k), 0, |options|)
    ensures var all, rest, t := Chosen(options, pick), Chosen(options, Drop(pick, k)), options[pick[k]].victim;
            && |all| == |rest| + 1
            && ReleasedCount(all) == ReleasedCount(rest) + |t.gpus|
            && PrioritySum(all) == PrioritySum(rest) + t.options.priority
            && RegularCount(all) == RegularCount(rest) + if t.options.background then 0 else 1
  {
    var a, b, x := pick[..k], pick[k + 1..], [pick[k]];
    assert pick == a + (x + b);
    ChosenConcat(options, x, b);
    ChosenConcat(options, a, x + b);
    ChosenConcat(options, a, b);
    ChosenCons(options, pick[k], []);
    assert [pick[k]] + [] == x;
    MeasuresOfOne(options[pick[k]]);
    MeasuresAdd(Chosen(options, x), Chosen(options, b));
    MeasuresAdd(Chosen(options, a), Chosen(options, x + b));
    MeasuresAdd(Chosen(options, a), Chosen(options, b));
    DropIsSubset(pick, k, |options|);
  }

  lemma HeadIsElement(s: seq<nat>)
    requires s != []
    ensures s[0] in Elements(s)
  {
  }

  /** A set of indexes has one increasing listing. */
  lemma {:induction false} SameSetSamePick(a: seq<nat>, b: seq<nat>, lo: nat, n: nat)
    requires Subset(a, lo, n) && Subset(b, lo, n) && Elements(a) == Elements(b)
    ensures a == b
  {
    if a != [] {
      assert a[0] in Elements(b) && b != [];
      assert b[0] in Elements(a);
      assert a[0] == b[0];
      assert a == [a[0]] + a[1..] && b == [b[0]] + b[1..];
      forall x
        ensures x in Elements(a[1..]) <==> x in Elements(b[1..])
      {
        assert x in Elements(a[1..]) <==> x in Elements(a) && x != a[0];
        assert x in Elements(b[1..]) <==> x in Elements(b) && x != b[0];
      }
      SubsetTail(a, lo, n);
      SubsetTail(b, lo, n);
      SameSetSamePick(a[1..], b[1..], a[0] + 1, n);
    } else if b != [] {
      HeadIsElement(b);
    }
  }

  /** And every set of indexes has one. */
  lemma {:induction false} PickOf(s: set<nat>, n: nat) returns (pick: seq<nat>)
    requires forall x | x in s :: x < n
    ensures Subset(pick, 0, n) && Elements(pick) == s
  {
    if n == 0 {
      pick := [];
      assert s == {};
    } else if n - 1 in s {
      var rest := PickOf(s - {n - 1}, n - 1);
      pick := rest + [n - 1];
      ElementsAppend(rest, n - 1);
      assert s - {n - 1} + {n - 1} == s;
      assert forall i | 0 <= i < |rest| :: rest[i] in Elements(rest);
    } else {
      pick := PickOf(s, n - 1);
    }
  }

  // ----- one victim for another -----

  /** `other` is `pick` with its `k`-th victim spared and option `x` given up in its place. */
  ghost predicate Replaces(other: seq<nat>, pick: seq<nat>, k: nat, x: nat) {
    k < |pick| && x !in pick && Elements(other) == Elements(pick) - {pick[k]} + {x}
  }

  lemma {:induction false} ReplacementExists(pick: seq<nat>, k: nat, x: nat, n: nat) returns (other: seq<nat>)
    requires Subset(pick, 0, n) && k < |pick| && x < n && x !in pick
    ensures Subset(other, 0, n) && Replaces(other, pick, k, x)
  {
    assert forall y | y in Elements(pick) :: y < n;
    other := PickOf(Elements(pick) - {pick[k]} + {x}, n);
  }

  lemma {:induction false} DropElements(pick: seq<nat>, k: nat, n: nat)
    requires Subset(pick, 0, n) && k < |pick|
    ensures Elements(Drop(pick, k)) == Elements(pick) - {pick[k]}
  {
    forall y
      ensures y in Elements(Drop(pick, k)) <==> y in Elements(pick) && y != pick[k]
    {
      if y in Elements(pick) && y != pick[k] {
        var i :| 0 <= i < |pick| && pick[i] == y;
        assert Drop(pick, k)[if i < k then i else i - 1] == y;
      }
    }
  }

  lemma {:induction false} ReplacedMeasures(options: seq<VictimOption>, pick: seq<nat>, other: seq<nat>, k: nat,
                                            x: nat)
    requires Subset(pick, 0, |options|) && Subset(other, 0, |options|) && Replaces(other, pick, k, x)
    ensures x < |options|
    ensures var a, b, was, now := Chosen(options, pick), Chosen(options, other), options[pick[k]].victim,
              options[x].victim;
            && |a| == |b|
            && ReleasedCount(b) - |now.gpus| == ReleasedCount(a) - |was.gpus|
            && PrioritySum(b) - now.options.priority == PrioritySum(a) - was.options.priority
            && (now.options.background == was.options.background ==> RegularCount(b) == RegularCount(a))
  {
    assert x in Elements(other);
    var j :| 0 <= j < |other| && other[j] == x;
    DropElements(pick, k, |options|);
    DropElements(other, j, |options|);
    DropMeasures(options, pick, k);
    DropMeasures(options, other, j);
    assert pick[k] in pick;
    SameSetSamePick(Drop(pick, k), Drop(other, j), 0, |options|);
  }

  lemma {:induction false} EarlierOldest(options: seq<VictimOption>, pick: seq<nat>, other: seq<nat>, x: nat)
    requires Subset(pick, 0, |options|) && Subset(other, 0, |options|) && pick != [] && x in other && x < |options|
    requires forall y | y in Chosen(options, pick) :: StartKey(options[x].victim) < StartKey(y.victim)
    ensures OldestStart(Chosen(options, other)) < OldestStart(Chosen(options, pick))
  {
    var j :| 0 <= j < |other| && other[j] == x;
    ChosenAt(options, other, j);
    assert options[x] in Chosen(options, other);
    var oldest := OldestIsEarliest(Chosen(options, pick));
    var newOldest := OldestIsEarliest(Chosen(options, other));
  }

  /**
   * In the chosen plan no victim can be replaced by another of the node, of the same kind and with as many
   * GPUs: one of lower priority never suffices, nor one of the same priority that started before all victims.
   */
  lemma {:induction false} CheaperReplacementFails(best: Proposal, workers: seq<WorkerConfig>, v: View,
                                                   o: TaskOptions, states: WorkerStates, k: nat, x: nat,
                                                   other: seq<nat>)
    requires KeyedById(v.tasks) && LeastProposal(Some(best), workers, v, o, states)
    requires Subset(other, 0, |best.problem.options|) && Replaces(other, best.pick, k, x)
    requires x < |best.problem.options| && best.pick[k] < |best.problem.options|
    requires var was, now := best.problem.options[best.pick[k]].victim, best.problem.options[x].victim;
             && now.options.background == was.options.background && |now.gpus| == |was.gpus|
             && (|| now.options.priority < was.options.priority
                 || (now.options.priority == was.options.priority
                     && forall y | y in best.Victims() :: StartKey(now) < StartKey(y.victim)))
    ensures !Sufficient(best.problem, Chosen(best.problem.options, other))
  {
    var options := best.problem.options;
    ReplacedMeasures(options, best.pick, other, k, x);
    assert x in Elements(other) && other != [];
    var was, now := options[best.pick[k]].victim, options[x].victim;
    if now.options.priority == was.options.priority {
      EarlierOldest(options, best.pick, other, x);
    }
    hide Sufficient, ProblemOn, Searched, Chosen, RegularCount, ReleasedCount, PrioritySum, OldestStart, NoLater;
    assert Unbeaten(Some(best), Proposal(best.problem, other));
  }

  // ----- no other set is preferred -----

  /** The regular tasks among the picked victims. */
  ghost function Regulars(p: NodeProblem, pick: seq<nat>): set<nat> {
    set i | i in pick && i < |p.options| && !p.options[i].victim.options.background
  }

  lemma {:induction false} RegularsCounted(p: NodeProblem, pick: seq<nat>, lo: nat)
    requires Subset(pick, lo, |p.options|)
    ensures RegularCount(Chosen(p.options, pick)) == |Regulars(p, pick)|
  {
    if pick != [] {
      SubsetTail(pick, lo, |p.options|);
      RegularsCounted(p, pick[1..], pick[0] + 1);
      RegularsHead(p, pick);
      hide Regulars, Subset;
    } else {
      assert Regulars(p, pick) == {};
    }
  }

  lemma {:induction false} RegularsHead(p: NodeProblem, pick: seq<nat>)
    requires pick != [] && Subset(pick, 0, |p.options|)
    ensures |Regulars(p, pick)| ==
            |Regulars(p, pick[1..])| + if p.options[pick[0]].victim.options.background then 0 else 1
  {
    assert pick == [pick[0]] + pick[1..];
    var one: set<nat> := if p.options[pick[0]].victim.options.background then {} else {pick[0]};
    assert pick[0] !in pick[1..];
    hide Subset;
    assert Regulars(p, pick) == Regulars(p, pick[1..]) + one;
  }

  /**
   * Over every searched node and every sufficient set of its victims: none has fewer regular victims; of
   * those with as many, none has fewer victims; then none releases fewer GPUs; then none has a lower sum of
   * priorities; then none has a victim that started before all of the plan's; then the earlier worker and the
   * lower node are taken, and on one node the victims given up first.
   */
  lemma {:induction false} NoSetIsPreferred(best: Proposal, workers: seq<WorkerConfig>, v: View, o: TaskOptions,
                                            states: WorkerStates, p: NodeProblem, pick: seq<nat>, first: Task,
                                            other: Task)
    requires KeyedById(v.tasks) && LeastProposal(Some(best), workers, v, o, states)
    requires Posed(workers, v, o, states, p) && Feasible(p, pick)
    requires Earliest(first, best.Victims()) && Earliest(other, Chosen(p.options, pick))
    ensures var a, b := best.Victims(), Chosen(p.options, pick);
            && |Regulars(best.problem, best.pick)| <= |Regulars(p, pick)|
            && (|Regulars(best.problem, best.pick)| == |Regulars(p, pick)| ==>
                  && |best.pick| <= |pick|
                  && (|best.pick| == |pick| ==>
                        && ReleasedCount(a) <= ReleasedCount(b)
                        && (ReleasedCount(a) == ReleasedCount(b) ==>
                              && PrioritySum(a) <= PrioritySum(b)
                              && (PrioritySum(a) == PrioritySum(b) ==>
                                    StartKey(first) <= StartKey(other) &&
                                    (StartKey(first) == StartKey(other) ==> NoLaterPlace(best, p, pick))))))
  {
    RegularsCounted(best.problem, best.pick, 0);
    RegularsCounted(p, pick, 0);
    var x := OldestIsEarliest(best.Victims());
    var y := OldestIsEarliest(Chosen(p.options, pick));
    hide Sufficient, ProblemOn, Searched, Chosen, Regulars, Cheaper, NoLater;
    assert Unbeaten(Some(best), Proposal(p, pick));
    NotCheaperMeans(best.Key(), Proposal(p, pick).Key());
  }

  /** The fields of the key are compared one after another. */
  lemma NotCheaperMeans(a: VictimsKey, b: VictimsKey)
    requires !Cheaper(b, a)
    ensures a.regular <= b.regular
    ensures a.regular == b.regular ==>
              && a.count <= b.count
              && (a.count == b.count ==>
                    && a.released <= b.released
                    && (a.released == b.released ==>
                          && a.prioritySum <= b.prioritySum
                          && (a.prioritySum == b.prioritySum ==>
                                a.oldestStart <= b.oldestStart &&
                                (a.oldestStart == b.oldestStart ==>
                                   a.order <= b.order &&
                                   (a.order == b.order ==> a.node <= b.node && (a.node == b.node ==> a == b))))))
  {
  }

  ghost predicate NoLaterPlace(best: Proposal, p: NodeProblem, pick: seq<nat>) {
    && best.problem.order <= p.order
    && (best.problem.order == p.order ==>
          && best.problem.node <= p.node
          && (best.problem.node == p.node ==> NoLater(best.pick, pick)))
  }

  /** Whatever the state, the proposal is determined. */
  lemma {:induction false} ProposalIsUnique(a: Proposal, b: Proposal, workers: seq<WorkerConfig>, v: View,
                                            o: TaskOptions, states: WorkerStates)
    requires KeyedById(v.tasks)
    requires LeastProposal(Some(a), workers, v, o, states) && LeastProposal(Some(b), workers, v, o, states)
    ensures a == b
  {
    hide Sufficient, ProblemOn, Searched, Chosen, NoLater;
    assert Unbeaten(Some(a), Proposal(b.problem, b.pick)) && Unbeaten(Some(b), Proposal(a.problem, a.pick));
    EqualCosts(a.Key(), b.Key());
    NoLaterBoth(a.pick, b.pick);
  }

  lemma EqualCosts(a: VictimsKey, b: VictimsKey)
    requires !Cheaper(a, b) && !Cheaper(b, a)
    ensures a == b
  {
  }

  /** A plan is only ever made for a task of several GPUs that is not elastic and sets no `min_free_seconds`. */
  lemma SearchedOnlyFor(o: TaskOptions)
    ensures WantsNode(o) <==> o.requestedGpus >= 2 && !o.elastic && o.minFreeSeconds < 1
  {
  }

  // ----- when releasing victims suffices -----

  /** GPUs of the node that are free, or held by a chosen victim that would free them for the task. */
  ghost function Obtainable(p: NodeProblem, pick: seq<nat>): set<int> {
    p.free + set i, g | i in pick && i < |p.options| && g in p.options[i].gpus :: g
  }

  lemma {:induction false} ReleasableIsObtainable(p: NodeProblem, pick: seq<nat>)
    requires forall i | 0 <= i < |pick| :: pick[i] < |p.options|
    ensures Releasable(p.free, Chosen(p.options, pick)) == Obtainable(p, pick)
  {
    if pick != [] {
      ReleasableIsObtainable(p, pick[1..]);
      assert pick == [pick[0]] + pick[1..];
      forall g
        ensures g in Obtainable(p, pick) <==> g in p.options[pick[0]].gpus || g in Obtainable(p, pick[1..])
      {
        assert g in p.options[pick[0]].gpus ==> pick[0] in pick;
      }
    } else {
      assert Obtainable(p, pick) == p.free;
    }
  }

  /**
   * A set suffices if and only if the node then has enough GPUs for the request and, under a cap, the slots
   * that stay in use leave room for it.
   */
  lemma {:induction false} SufficientExactly(p: NodeProblem, pick: seq<nat>)
    requires Subset(pick, 0, |p.options|) && p.requested >= 1
    ensures Sufficient(p, Chosen(p.options, pick)) <==>
            && |Obtainable(p, pick)| >= p.requested
            && (p.cap.Some? ==> p.used - ReleasedCount(Chosen(p.options, pick)) + p.requested <= p.cap.value)
  {
    ReleasableIsObtainable(p, pick);
  }

  /** A victim frees a GPU if it holds it and the probe shows it on the node, large enough for the task. */
  lemma {:induction false} FreedExactly(t: Task, reported: seq<GpuState>, node: int, o: TaskOptions, index: int)
    requires DistinctIndexes(reported)
    ensures index in FreedOnNode(t, reported, node, o) <==>
            && index in t.gpus
            && exists g :: g in reported && g.index == index && g.numaNode == Some(node)
                 && (o.minFreeMemoryMb.Some? ==> g.memoryTotalMb >= o.minFreeMemoryMb.value)
  {
    var found := StateAt(reported, index);
    if g :|
      && g in reported
      && g.index == index
      && g.numaNode == Some(node)
      && (o.minFreeMemoryMb.Some? ==> g.memoryTotalMb >= o.minFreeMemoryMb.value)
    {
      var i :| 0 <= i < |reported| && reported[i] == g;
      var j :| 0 <= j < |reported| && reported[j] == found.value;
      assert i == j;
    }
  }

  /** What is free on the node are the offered GPUs that the probe shows there. */
  lemma FreeOnNodeExactly(free: seq<GpuState>, node: int, index: int)
    ensures index in FreeOnNode(free, node) <==>
            exists g :: g in free && g.index == index && g.numaNode == Some(node)
  {
  }

  /** The options of a node are the permitted tasks of the worker that free something there. */
  lemma {:induction false} OptionsExactly(eligible: seq<Task>, reported: seq<GpuState>, node: int, o: TaskOptions,
                                          x: VictimOption)
    ensures x in OptionsOn(eligible, reported, node, o) <==>
            x.victim in eligible && x.gpus == FreedOnNode(x.victim, reported, node, o) && x.gpus != {}
  {
    if eligible != [] {
      var n := |eligible| - 1;
      OptionsExactly(eligible[..n], reported, node, o, x);
      assert eligible == eligible[..n] + [eligible[n]];
    }
  }
}
