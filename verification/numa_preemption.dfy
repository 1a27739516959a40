/** `_find_numa_preemption_plan`: the search over victim subsets for a NUMA-local allocation. */
module NumaPreemption {
  import opened Models
  import opened Lifecycle
  import opened Capacity
  import opened Queries
  import opened GpuSelection
  import opened Placement
  import opened Victims

  // ----- itertools.combinations -----

  /** The index lists of length `k` drawn from `lo..n`, in lexicographic order. */
  function Combinations(lo: nat, n: nat, k: nat): seq<seq<nat>>
    decreases n - lo, k
  {
    if k == 0 then [[]]
    else if lo >= n then []
    else PrependAll(lo, Combinations(lo + 1, n, k - 1)) + Combinations(lo + 1, n, k)
  }

  function PrependAll(x: nat, lists: seq<seq<nat>>): seq<seq<nat>> {
    if lists == [] then [] else [[x] + lists[0]] + PrependAll(x, lists[1..])
  }

  lemma {:induction false} PrependAllMembers(x: nat, lists: seq<seq<nat>>)
    ensures forall l | l in lists :: [x] + l in PrependAll(x, lists)
    ensures forall l | l in PrependAll(x, lists) :: l != [] && l[0] == x && l[1..] in lists
  {
    if lists != [] {
      PrependAllMembers(x, lists[1..]);
      assert ([x] + lists[0])[1..] == lists[0];
    }
  }

  /** A subset of `lo..n`, written as its elements in increasing order. */
  ghost predicate Subset(pick: seq<nat>, lo: nat, n: nat) {
    && (forall i | 0 <= i < |pick| :: lo <= pick[i] < n)
    && (forall i, j | 0 <= i < j < |pick| :: pick[i] < pick[j])
  }

  lemma {:induction false} SubsetTail(pick: seq<nat>, lo: nat, n: nat)
    requires pick != [] && Subset(pick, lo, n)
    ensures Subset(pick[1..], pick[0] + 1, n)
  {
  }

  lemma {:induction false} SubsetCons(x: nat, pick: seq<nat>, n: nat)
    requires x < n && Subset(pick, x + 1, n)
    ensures Subset([x] + pick, x, n)
  {
  }

  lemma {:induction false} SubsetFrom(pick: seq<nat>, lo: nat, n: nat)
    ensures Subset(pick, lo + 1, n) ==> Subset(pick, lo, n)
    ensures Subset(pick, lo, n) && pick != [] && pick[0] != lo ==> Subset(pick, lo + 1, n)
  {
  }

  lemma {:induction false} CombinationCases(lo: nat, n: nat, k: nat, pick: seq<nat>)
    requires k > 0 && lo < n && pick in Combinations(lo, n, k)
    ensures || pick in Combinations(lo + 1, n, k)
            || (pick != [] && pick[0] == lo && pick[1..] in Combinations(lo + 1, n, k - 1))
  {
    PrependAllMembers(lo, Combinations(lo + 1, n, k - 1));
  }

  lemma {:induction false} CombinationIsSubset(lo: nat, n: nat, k: nat, pick: seq<nat>)
    requires pick in Combinations(lo, n, k)
    ensures Subset(pick, lo, n) && |pick| == k
    decreases n - lo, k
  {
    if k > 0 && lo < n {
      CombinationCases(lo, n, k, pick);
      hide Combinations, Subset;
      if pick in Combinations(lo + 1, n, k) {
        CombinationIsSubset(lo + 1, n, k, pick);
        SubsetFrom(pick, lo, n);
      } else {
        CombinationIsSubset(lo + 1, n, k - 1, pick[1..]);
        SubsetCons(lo, pick[1..], n);
        assert [lo] + pick[1..] == pick;
      }
    }
  }

  /** The enumeration misses no subset. */
  lemma {:induction false} SubsetIsCombination(lo: nat, n: nat, pick: seq<nat>)
    requires Subset(pick, lo, n)
    ensures pick in Combinations(lo, n, |pick|)
    decreases n - lo, |pick|
  {
    if pick != [] {
      assert lo <= pick[0] < n;
      if pick[0] == lo {
        SubsetTail(pick, lo, n);
        SubsetIsCombination(lo + 1, n, pick[1..]);
        PrependAllMembers(lo, Combinations(lo + 1, n, |pick| - 1));
        assert [lo] + pick[1..] == pick;
      } else {
        SubsetFrom(pick, lo, n);
        SubsetIsCombination(lo + 1, n, pick);
      }
    }
  }

  // ----- the order of the enumeration -----

  /** Lexicographic order. */
  ghost predicate NoLater(a: seq<nat>, b: seq<nat>) {
    a == [] || (b != [] && (a[0] < b[0] || (a[0] == b[0] && NoLater(a[1..], b[1..]))))
  }

  lemma {:induction false} NoLaterBoth(a: seq<nat>, b: seq<nat>)
    requires NoLater(a, b) && NoLater(b, a)
    ensures a == b
  {
    if a != [] {
      NoLaterBoth(a[1..], b[1..]);
      assert a == [a[0]] + a[1..] && b == [b[0]] + b[1..];
    }
  }

  lemma {:induction false} NoLaterItself(a: seq<nat>)
    ensures NoLater(a, a)
  {
    if a != [] {
      NoLaterItself(a[1..]);
    }
  }

  ghost predicate InOrder(lists: seq<seq<nat>>) {
    forall i, j | 0 <= i < j < |lists| :: NoLater(lists[i], lists[j])
  }

  lemma {:induction false} PrependAllInOrder(x: nat, lists: seq<seq<nat>>)
    requires InOrder(lists)
    ensures InOrder(PrependAll(x, lists))
    ensures |PrependAll(x, lists)| == |lists|
    ensures forall i | 0 <= i < |lists| :: PrependAll(x, lists)[i] == [x] + lists[i]
  {
    if lists != [] {
      PrependAllInOrder(x, lists[1..]);
    }
    var r := PrependAll(x, lists);
    forall i, j | 0 <= i < j < |r|
      ensures NoLater(r[i], r[j])
    {
      assert r[i][1..] == lists[i] && r[j][1..] == lists[j];
    }
  }

  lemma {:induction false} CombinationsInOrder(lo: nat, n: nat, k: nat)
    ensures InOrder(Combinations(lo, n, k))
    decreases n - lo, k
  {
    if k > 0 && lo < n {
      var first, second := Combinations(lo + 1, n, k - 1), Combinations(lo + 1, n, k);
      CombinationsInOrder(lo + 1, n, k - 1);
      CombinationsInOrder(lo + 1, n, k);
      PrependAllInOrder(lo, first);
      forall j | 0 <= j < |second|
        ensures second[j] != [] && second[j][0] > lo
      {
        CombinationIsSubset(lo + 1, n, k, second[j]);
      }
      hide Combinations;
      assert forall i, j | 0 <= i < |first| && 0 <= j < |second| :: NoLater([lo] + first[i], second[j]);
    }
  }

  // ----- one worker and node -----

  /** A victim with the GPUs it would free for the task on the node. */
  datatype VictimOption = VictimOption(victim: Task, gpus: set<int>)

  /** The search on one node of one worker: what is free there, and what the victims could free. */
  datatype NodeProblem = NodeProblem(
    options: seq<VictimOption>,
    free: set<int>,
    requested: int,
    cap: Option<int>,
    used: nat,
    order: nat,
    node: int)

  function Chosen(options: seq<VictimOption>, pick: seq<nat>): (sel: seq<VictimOption>)
    requires forall i | 0 <= i < |pick| :: pick[i] < |options|
    ensures |sel| == |pick|
  {
    if pick == [] then [] else [options[pick[0]]] + Chosen(options, pick[1..])
  }

  function Releasable(free: set<int>, sel: seq<VictimOption>): set<int> {
    if sel == [] then free else sel[0].gpus + Releasable(free, sel[1..])
  }

  function ReleasedCount(sel: seq<VictimOption>): nat {
    if sel == [] then 0 else |sel[0].victim.gpus| + ReleasedCount(sel[1..])
  }

  function RegularCount(sel: seq<VictimOption>): nat {
    if sel == [] then 0 else (if sel[0].victim.options.background then 0 else 1) + RegularCount(sel[1..])
  }

  function PrioritySum(sel: seq<VictimOption>): int {
    if sel == [] then 0 else sel[0].victim.options.priority + PrioritySum(sel[1..])
  }

  function OldestStart(sel: seq<VictimOption>): int {
    if sel == [] then -1
    else if |sel| == 1 || StartKey(sel[0].victim) <= OldestStart(sel[1..]) then StartKey(sel[0].victim)
    else OldestStart(sel[1..])
  }

  /** Releasing the selected victims leaves enough GPUs on the node and enough slots on the worker. */
  predicate Sufficient(p: NodeProblem, sel: seq<VictimOption>) {
    var gpus := |Releasable(p.free, sel)|;
    && gpus >= p.requested
    && (if p.cap.Some? then Max(0, p.cap.value - p.used + ReleasedCount(sel)) else gpus) >= p.requested
  }

  datatype VictimsKey = VictimsKey(
    regular: nat, count: nat, released: nat, prioritySum: int, oldestStart: int, order: nat, node: int)

  function KeyFor(p: NodeProblem, sel: seq<VictimOption>): VictimsKey {
    VictimsKey(RegularCount(sel), |sel|, ReleasedCount(sel), PrioritySum(sel), OldestStart(sel), p.order, p.node)
  }

  predicate Cheaper(a: VictimsKey, b: VictimsKey) {
    if a.regular != b.regular then a.regular < b.regular
    else if a.count != b.count then a.count < b.count
    else if a.released != b.released then a.released < b.released
    else if a.prioritySum != b.prioritySum then a.prioritySum < b.prioritySum
    else if a.oldestStart != b.oldestStart then a.oldestStart < b.oldestStart
    else if a.order != b.order then a.order < b.order
    else a.node < b.node
  }

  lemma {:induction false} CheaperIsTransitive(a: VictimsKey, b: VictimsKey, c: VictimsKey)
    requires Cheaper(b, c) && !Cheaper(a, c)
    ensures !Cheaper(a, b)
  {
  }

  /** A non-empty subset of the node's victims whose release suffices. */
  ghost predicate Feasible(p: NodeProblem, pick: seq<nat>) {
    pick != [] && Subset(pick, 0, |p.options|) && Sufficient(p, Chosen(p.options, pick))
  }

  /** A subset of victims of one problem, with its key. */
  datatype Proposal = Proposal(problem: NodeProblem, pick: seq<nat>) {
    ghost predicate Valid() {
      Feasible(problem, pick)
    }

    function Victims(): seq<VictimOption>
      requires forall i | 0 <= i < |pick| :: pick[i] < |problem.options|
    {
      Chosen(problem.options, pick)
    }

    function Key(): VictimsKey
      requires forall i | 0 <= i < |pick| :: pick[i] < |problem.options|
    {
      KeyFor(problem, Victims())
    }
  }

  /** The other proposal is infeasible, or this best one is cheaper, or as cheap and not enumerated later. */
  ghost predicate Unbeaten(best: Option<Proposal>, other: Proposal) {
    (best.Some? ==> best.value.Valid()) &&
    (other.Valid() ==>
       && best.Some? && !Cheaper(other.Key(), best.value.Key())
       && (other.Key() == best.value.Key() ==> NoLater(best.value.pick, other.pick)))
  }

  ghost predicate Elsewhere(best: Proposal, p: NodeProblem) {
    best.problem.order != p.order || best.problem.node != p.node
  }

  /** Whatever was kept so far is not enumerated after this one, should their keys be equal. */
  ghost predicate Precedes(best: Option<Proposal>, p: NodeProblem, pick: seq<nat>)
    requires best.Some? ==> best.value.Valid()
  {
    best.Some? && !Elsewhere(best.value, p) && |best.value.pick| == |pick| ==> NoLater(best.value.pick, pick)
  }

  /** Whatever did not beat the first does not beat the second. */
  ghost predicate NoWorse(before: Option<Proposal>, after: Option<Proposal>) {
    forall other | Unbeaten(before, other) :: Unbeaten(after, other)
  }

  lemma {:induction false} NoWorseTransitive(a: Option<Proposal>, b: Option<Proposal>, c: Option<Proposal>)
    requires NoWorse(a, b) && NoWorse(b, c)
    ensures NoWorse(a, c)
  {
  }

  lemma {:induction false} ReplacingIsNoWorse(best: Option<Proposal>, proposal: Proposal)
    requires proposal.Valid()
    requires best.Some? ==> best.value.Valid() && Cheaper(proposal.Key(), best.value.Key())
    ensures NoWorse(best, Some(proposal))
  {
    forall other | Unbeaten(best, other)
      ensures Unbeaten(Some(proposal), other)
    {
      if other.Valid() {
        CheaperIsTransitive(other.Key(), proposal.Key(), best.value.Key());
      }
    }
  }

  /** The stable sort's first element: a later candidate replaces the best only when strictly cheaper. */
  method Improve(best: Option<Proposal>, p: NodeProblem, pick: seq<nat>) returns (r: Option<Proposal>)
    requires pick != [] && Subset(pick, 0, |p.options|)
    requires best.Some? ==> best.value.Valid()
    requires Precedes(best, p, pick)
    ensures Unbeaten(r, Proposal(p, pick))
    ensures r == best || r == Some(Proposal(p, pick))
    ensures NoWorse(best, r)
  {
    r := best;
    NoLaterItself(pick);
    if Sufficient(p, Chosen(p.options, pick)) {
      var proposal := Proposal(p, pick);
      if best.None? || Cheaper(proposal.Key(), best.value.Key()) {
        ReplacingIsNoWorse(best, proposal);
        r := Some(proposal);
      }
    }
  }

  lemma {:induction false} NoWorseItself(best: Option<Proposal>)
    ensures NoWorse(best, best)
  {
  }

  lemma {:induction false} EarlierPrecedes(best: Option<Proposal>, r: Option<Proposal>, p: NodeProblem, count: nat,
                                           combinations: seq<seq<nat>>, c: nat)
    requires best.Some? ==> best.value.Valid() && (Elsewhere(best.value, p) || |best.value.pick| < count)
    requires c < |combinations| && InOrder(combinations) && |combinations[c]| == count
    requires r.Some? ==>
               r.value.Valid() && (r == best || (r.value.problem == p && r.value.pick in combinations[..c]))
    ensures Precedes(r, p, combinations[c])
  {
    hide Feasible, NoLater;
    if r.Some? && r != best {
      var k :| 0 <= k < c && combinations[k] == r.value.pick;
    }
  }

  /** The loop over the combinations of one size. */
  method SearchCombinations(best: Option<Proposal>, p: NodeProblem, count: nat, combinations: seq<seq<nat>>)
    returns (r: Option<Proposal>)
    requires best.Some? ==> best.value.Valid() && (Elsewhere(best.value, p) || |best.value.pick| < count)
    requires forall pick | pick in combinations :: pick != [] && Subset(pick, 0, |p.options|) && |pick| == count
    requires InOrder(combinations)
    ensures r.Some? ==> r.value.Valid() && (r == best || (r.value.problem == p && |r.value.pick| == count))
    ensures NoWorse(best, r)
    ensures forall pick | pick in combinations :: Unbeaten(r, Proposal(p, pick))
  {
    hide Feasible, Subset, NoLater, NoWorse, Unbeaten, Sufficient;
    r := best;
    NoWorseItself(best);
    for c := 0 to |combinations|
      invariant r.Some? ==>
                  r.value.Valid() && (r == best || (r.value.problem == p && r.value.pick in combinations[..c]))
      invariant NoWorse(best, r)
      invariant forall k | 0 <= k < c :: Unbeaten(r, Proposal(p, combinations[k]))
    {
      assert combinations[c] in combinations;
      assert combinations[..c + 1] == combinations[..c] + [combinations[c]];
      EarlierPrecedes(best, r, p, count, combinations, c);
      ghost var before := r;
      r := Improve(r, p, combinations[c]);
      NoWorseTransitive(best, before, r);
    }
  }

  /** Every subset of this node's victims with fewer than `count` members has been compared. */
  ghost predicate Swept(r: Option<Proposal>, p: NodeProblem, count: nat) {
    forall pick | |pick| < count :: Unbeaten(r, Proposal(p, pick))
  }

  /** The loop over subset sizes of one node. */
  method SearchNode(best: Option<Proposal>, p: NodeProblem) returns (r: Option<Proposal>)
    requires best.Some? ==> best.value.Valid() && Elsewhere(best.value, p)
    ensures r.Some? ==> r.value.Valid() && (r == best || r.value.problem == p)
    ensures NoWorse(best, r)
    ensures forall pick :: Unbeaten(r, Proposal(p, pick))
  {
    r := best;
    for count := 1 to |p.options| + 1
      invariant r.Some? ==> r.value.Valid() && (r == best || (r.value.problem == p && |r.value.pick| < count))
      invariant NoWorse(best, r)
      invariant Swept(r, p, count)
    {
      var combinations := Combinations(0, |p.options|, count);
      forall pick | pick in combinations
        ensures |pick| == count && Subset(pick, 0, |p.options|)
      {
        CombinationIsSubset(0, |p.options|, count, pick);
      }
      ghost var before := r;
      CombinationsInOrder(0, |p.options|, count);
      r := SearchCombinations(r, p, count, combinations);
      NoWorseTransitive(best, before, r);
      SweptNext(before, r, p, count);
    }
    forall pick
      ensures Unbeaten(r, Proposal(p, pick))
    {
      if Feasible(p, pick) {
        SubsetIsShort(pick, 0, |p.options|);
      }
    }
  }

  lemma {:induction false} SweptNext(before: Option<Proposal>, r: Option<Proposal>, p: NodeProblem, count: nat)
    requires Swept(before, p, count) && NoWorse(before, r)
    requires r.Some? ==> r.value.Valid()
    requires forall pick | pick in Combinations(0, |p.options|, count) :: Unbeaten(r, Proposal(p, pick))
    ensures Swept(r, p, count + 1)
  {
    forall pick | |pick| < count + 1
      ensures Unbeaten(r, Proposal(p, pick))
    {
      if |pick| == count && Feasible(p, pick) {
        SubsetIsCombination(0, |p.options|, pick);
      }
    }
  }

  lemma {:induction false} SubsetIsShort(pick: seq<nat>, lo: nat, n: nat)
    requires Subset(pick, lo, n)
    ensures lo <= n ==> |pick| <= n - lo
    decreases |pick|
  {
    if pick != [] {
      SubsetIsShort(pick[1..], pick[0] + 1, n);
    }
  }

  // ----- when a subset suffices at all -----

  function AllFrom(lo: nat, n: nat): seq<nat>
    decreases n - lo
  {
    if lo >= n then [] else [lo] + AllFrom(lo + 1, n)
  }

  lemma {:induction false} ChosenCons(options: seq<VictimOption>, x: nat, pick: seq<nat>)
    requires x < |options| && forall i | 0 <= i < |pick| :: pick[i] < |options|
    ensures forall i | 0 <= i < |[x] + pick| :: ([x] + pick)[i] < |options|
    ensures Chosen(options, [x] + pick) == [options[x]] + Chosen(options, pick)
  {
    assert ([x] + pick)[1..] == pick;
  }

  lemma {:induction false} AllIsEverything(options: seq<VictimOption>, lo: nat)
    requires lo <= |options|
    ensures Subset(AllFrom(lo, |options|), lo, |options|)
    ensures Chosen(options, AllFrom(lo, |options|)) == options[lo..]
    decreases |options| - lo
  {
    var n := |options|;
    if lo < n {
      AllIsEverything(options, lo + 1);
      SubsetCons(lo, AllFrom(lo + 1, n), n);
      assert AllFrom(lo, n) == [lo] + AllFrom(lo + 1, n);
      ChosenCons(options, lo, AllFrom(lo + 1, n));
      hide Subset, Chosen;
      assert options[lo..] == [options[lo]] + options[lo + 1..];
    }
  }

  /** A subset releases no more than all the victims together. */
  lemma {:induction false} SubsetReleasesLess(options: seq<VictimOption>, free: set<int>, pick: seq<nat>, lo: nat)
    requires lo <= |options| && Subset(pick, lo, |options|)
    ensures Releasable(free, Chosen(options, pick)) <= Releasable(free, options[lo..])
    ensures ReleasedCount(Chosen(options, pick)) <= ReleasedCount(options[lo..])
    decreases |options| - lo
  {
    if pick == [] {
      FreeIsReleasable(free, options[lo..]);
    } else {
      assert lo <= pick[0] < |options|;
      assert options[lo..][1..] == options[lo + 1..];
      if pick[0] == lo {
        SubsetTail(pick, lo, |options|);
        SubsetReleasesLess(options, free, pick[1..], lo + 1);
      } else {
        SubsetFrom(pick, lo, |options|);
        SubsetReleasesLess(options, free, pick, lo + 1);
      }
    }
  }

  lemma {:induction false} FreeIsReleasable(free: set<int>, sel: seq<VictimOption>)
    ensures free <= Releasable(free, sel)
  {
    if sel != [] {
      FreeIsReleasable(free, sel[1..]);
    }
  }

  /** Some subset of a node's victims suffices exactly when there is a victim and all of them together suffice. */
  lemma {:induction false} SomeSubsetSuffices(p: NodeProblem)
    ensures (exists pick :: Feasible(p, pick)) <==> (p.options != [] && Sufficient(p, p.options))
  {
    var all := AllFrom(0, |p.options|);
    AllIsEverything(p.options, 0);
    assert p.options[0..] == p.options;
    if p.options != [] && Sufficient(p, p.options) {
      assert Feasible(p, all);
    }
    if pick :| Feasible(p, pick) {
      SubsetReleasesLess(p.options, p.free, pick, 0);
      SubsetSize(Releasable(p.free, Chosen(p.options, pick)), Releasable(p.free, p.options));
    }
  }

  // ----- no superfluous victim -----

  function Drop(pick: seq<nat>, k: nat): seq<nat>
    requires k < |pick|
  {
    pick[..k] + pick[k + 1..]
  }

  lemma {:induction false} DropIsSubset(pick: seq<nat>, k: nat, n: nat)
    requires Subset(pick, 0, n) && k < |pick|
    ensures Subset(Drop(pick, k), 0, n)
  {
  }

  lemma {:induction false} DroppingRegulars(options: seq<VictimOption>, pick: seq<nat>, k: nat)
    requires forall i | 0 <= i < |pick| :: pick[i] < |options|
    requires k < |pick|
    ensures RegularCount(Chosen(options, Drop(pick, k))) <= RegularCount(Chosen(options, pick))
  {
    if k == 0 {
      assert Drop(pick, 0) == pick[1..];
    } else {
      DroppingRegulars(options, pick[1..], k - 1);
      assert Drop(pick, k)[1..] == Drop(pick[1..], k - 1);
    }
  }

  lemma {:induction false} DroppingIsCheaper(p: NodeProblem, pick: seq<nat>, k: nat)
    requires Subset(pick, 0, |p.options|) && k < |pick|
    ensures Subset(Drop(pick, k), 0, |p.options|)
    ensures Cheaper(Proposal(p, Drop(pick, k)).Key(), Proposal(p, pick).Key())
  {
    DropIsSubset(pick, k, |p.options|);
    DroppingRegulars(p.options, pick, k);
  }

  /** Dropping any one victim of the best proposal leaves too few GPUs on the node or too few slots. */
  lemma {:induction false} BestIsIrredundant(best: Proposal, k: nat)
    requires best.Valid() && k < |best.pick|
    requires |best.problem.free| < best.problem.requested
    requires forall pick :: Unbeaten(Some(best), Proposal(best.problem, pick))
    ensures !Sufficient(best.problem, Chosen(best.problem.options, Drop(best.pick, k)))
  {
    DroppingIsCheaper(best.problem, best.pick, k);
    if Drop(best.pick, k) != [] {
      assert Unbeaten(Some(best), Proposal(best.problem, Drop(best.pick, k)));
    }
  }

  // ----- all workers and nodes -----

  datatype NumaPreemptionPlan = NumaPreemptionPlan(worker: WorkerConfig, node: int, victims: seq<Task>)

  /** `_gpu_can_satisfy_after_release`. */
  predicate CanSatisfyAfterRelease(g: GpuState, o: TaskOptions) {
    o.minFreeMemoryMb.Some? ==> g.memoryTotalMb >= o.minFreeMemoryMb.value
  }

  predicate UsableOnNode(reported: seq<GpuState>, index: int, node: int, o: TaskOptions) {
    var g := StateAt(reported, index);
    g.Some? && g.value.numaNode == Some(node) && CanSatisfyAfterRelease(g.value, o)
  }

  /** The GPUs on the node that releasing a victim makes usable for the task. */
  function FreedOnNode(victim: Task, reported: seq<GpuState>, node: int, o: TaskOptions): set<int> {
    set g | g in victim.gpus && UsableOnNode(reported, g, node, o)
  }

  function OptionsOn(eligible: seq<Task>, reported: seq<GpuState>, node: int, o: TaskOptions): seq<VictimOption> {
    if eligible == [] then []
    else
      var n := |eligible| - 1;
      var freed := FreedOnNode(eligible[n], reported, node, o);
      OptionsOn(eligible[..n], reported, node, o) + if freed == {} then [] else [VictimOption(eligible[n], freed)]
  }

  function FreeOnNode(free: seq<GpuState>, node: int): set<int> {
    set g | g in free && g.numaNode == Some(node) :: g.index
  }

  ghost function ProblemOn(workers: seq<WorkerConfig>, v: View, o: TaskOptions, states: WorkerStates, i: nat,
                           node: int): NodeProblem
    requires i < |workers| && KeyedById(v.tasks)
  {
    var w := workers[i];
    NodeProblem(
      OptionsOn(Candidates(NumaRule, o, v.tasks, w.name), StatesOf(states, w.name), node, o),
      FreeOnNode(Available(v, w.name, StatesOf(states, w.name), o), node),
      o.requestedGpus, w.maxConcurrentTasks, |Held(v.tasks, w.name)|, i, node)
  }

  /** Worker `i` is enabled, probed and targeted, and its node lacks free GPUs for the whole request. */
  ghost predicate Searched(workers: seq<WorkerConfig>, v: View, o: TaskOptions, states: WorkerStates, i: nat, node: int)
    requires i < |workers|
  {
    && workers[i].enabled && workers[i].name in states && Targets(o, workers[i])
    && node in Nodes(states[workers[i].name])
    && |FreeOnNode(Available(v, workers[i].name, states[workers[i].name], o), node)| < o.requestedGpus
  }

  /** The tasks for which the search runs at all. */
  predicate WantsNode(o: TaskOptions) {
    o.requestedGpus > 1 && !o.elastic && o.minFreeSeconds <= 0
  }

  function VictimTasks(sel: seq<VictimOption>): seq<Task> {
    if sel == [] then [] else [sel[0].victim] + VictimTasks(sel[1..])
  }

  /** One of the searches that `_find_numa_preemption_plan` makes. */
  ghost predicate Posed(workers: seq<WorkerConfig>, v: View, o: TaskOptions, states: WorkerStates, p: NodeProblem)
    requires KeyedById(v.tasks)
  {
    && p.order < |workers|
    && Searched(workers, v, o, states, p.order, p.node)
    && p == ProblemOn(workers, v, o, states, p.order, p.node)
  }

  /** Least over every enabled worker, every node and every non-empty subset of the victims that hold GPUs there. */
  ghost predicate LeastProposal(best: Option<Proposal>, workers: seq<WorkerConfig>, v: View, o: TaskOptions,
                                states: WorkerStates)
    requires KeyedById(v.tasks)
  {
    && (best.Some? ==> best.value.Valid() && Posed(workers, v, o, states, best.value.problem))
    && forall p, pick | Posed(workers, v, o, states, p) :: Unbeaten(best, Proposal(p, pick))
  }

  /**
   * A plan is found exactly when on some searched node of some searched worker, releasing every victim that
   * holds usable GPUs there would do. Victims that hold none there never count, even for their slots.
   */
  lemma {:induction false} PlanExistsExactly(best: Option<Proposal>, workers: seq<WorkerConfig>, v: View,
                                             o: TaskOptions, states: WorkerStates)
    requires KeyedById(v.tasks)
    requires LeastProposal(best, workers, v, o, states)
    ensures best.Some? <==> exists p :: Posed(workers, v, o, states, p) && p.options != [] && Sufficient(p, p.options)
  {
    hide Sufficient, Posed;
    if best.Some? {
      SomeSubsetSuffices(best.value.problem);
      assert Feasible(best.value.problem, best.value.pick);
    }
    if p :| Posed(workers, v, o, states, p) && p.options != [] && Sufficient(p, p.options) {
      SomeSubsetSuffices(p);
      var pick :| Feasible(p, pick);
      assert Unbeaten(best, Proposal(p, pick));
    }
  }

  /** `victim_options`. */
  method CollectOptions(eligible: seq<Task>, reported: seq<GpuState>, node: int, o: TaskOptions)
    returns (options: seq<VictimOption>)
    ensures options == OptionsOn(eligible, reported, node, o)
  {
    options := [];
    for k := 0 to |eligible|
      invariant options == OptionsOn(eligible[..k], reported, node, o)
    {
      assert eligible[..k + 1][..k] == eligible[..k];
      var freed := FreedOnNode(eligible[k], reported, node, o);
      if freed != {} {
        options := options + [VictimOption(eligible[k], freed)];
      }
    }
    assert eligible[..|eligible|] == eligible;
  }

  ghost predicate Increasing(s: seq<int>) {
    forall i, j | 0 <= i < j < |s| :: s[i] < s[j]
  }

  lemma {:induction false} InsertKeepsIncreasing(x: int, s: seq<int>)
    requires Increasing(s)
    ensures Increasing(InsertInt(x, s))
  {
    if s != [] && x > s[0] {
      InsertKeepsIncreasing(x, s[1..]);
      var rest := InsertInt(x, s[1..]);
      forall j | 0 <= j < |rest|
        ensures s[0] < rest[j]
      {
        assert rest[j] in rest;
      }
    }
  }

  function InsertInt(x: int, s: seq<int>): (r: seq<int>)
    ensures forall y :: y in r <==> y == x || y in s
  {
    if s == [] || x < s[0] then [x] + s
    else if x == s[0] then s
    else
      assert s == [s[0]] + s[1..];
      [s[0]] + InsertInt(x, s[1..])
  }

  /** `sorted({gpu.numa_node ...})`. */
  method NumaNodes(reported: seq<GpuState>) returns (nodes: seq<int>)
    ensures forall node :: node in nodes <==> node in Nodes(reported)
    ensures Increasing(nodes)
  {
    nodes := [];
    for g := 0 to |reported|
      invariant Increasing(nodes)
      invariant forall node :: node in nodes <==> node in Nodes(reported[..g])
    {
      assert reported[..g + 1] == reported[..g] + [reported[g]];
      if reported[g].numaNode.Some? {
        InsertKeepsIncreasing(reported[g].numaNode.value, nodes);
        nodes := InsertInt(reported[g].numaNode.value, nodes);
      }
    }
    assert reported[..|reported|] == reported;
  }

  /** No node of a worker is searched twice. */
  ghost predicate Apart(ps: seq<NodeProblem>) {
    forall i, j | 0 <= i < j < |ps| :: ps[i].order != ps[j].order || ps[i].node != ps[j].node
  }

  lemma {:induction false} ApartAppend(ps: seq<NodeProblem>, p: NodeProblem, nodes: seq<int>)
    requires Apart(ps) && p.node !in nodes && forall q | q in ps :: q.node in nodes
    ensures Apart(ps + [p])
  {
    assert forall k | 0 <= k < |ps| :: ps[k] in ps;
  }

  /** The loop over the NUMA nodes of one worker: nodes with enough free GPUs are skipped. */
  method ProblemsOn(workers: seq<WorkerConfig>, v: View, o: TaskOptions, states: WorkerStates, i: nat,
                    free: seq<GpuState>)
    returns (ps: seq<NodeProblem>)
    requires KeyedById(v.tasks) && i < |workers|
    requires workers[i].enabled && workers[i].name in states && Targets(o, workers[i])
    requires free == Available(v, workers[i].name, states[workers[i].name], o)
    ensures forall p :: p in ps <==> Posed(workers, v, o, states, p) && p.order == i
    ensures Apart(ps)
  {
    ps := [];
    hide Available, Candidates, FreeOnNode, OptionsOn, Nodes, Held, Targets;
    var eligible, used := CandidatesOn(NumaRule, o, v.tasks, workers[i].name);
    var nodes := NumaNodes(states[workers[i].name]);
    for n := 0 to |nodes|
      invariant forall p :: p in ps <==> Posed(workers, v, o, states, p) && p.order == i && p.node in nodes[..n]
      invariant Apart(ps)
    {
      assert nodes[..n + 1] == nodes[..n] + [nodes[n]];
      assert nodes[n] in nodes;
      var freeOnNode := FreeOnNode(free, nodes[n]);
      if |freeOnNode| < o.requestedGpus {
        var options := CollectOptions(eligible, states[workers[i].name], nodes[n], o);
        var p := NodeProblem(options, freeOnNode, o.requestedGpus, workers[i].maxConcurrentTasks, used, i, nodes[n]);
        assert p == ProblemOn(workers, v, o, states, i, nodes[n]);
        ApartAppend(ps, p, nodes[..n]);
        ps := ps + [p];
      }
    }
    assert nodes[..|nodes|] == nodes;
  }

  lemma {:induction false} NoneApart()
    ensures Apart([])
  {
  }

  lemma {:induction false} ApartJoin(ps: seq<NodeProblem>, more: seq<NodeProblem>, i: nat)
    requires Apart(ps) && Apart(more)
    requires (forall p | p in ps :: p.order < i) && (forall p | p in more :: p.order == i)
    ensures Apart(ps + more)
  {
    assert forall k | 0 <= k < |ps| :: ps[k] in ps;
    assert forall k | 0 <= k < |more| :: more[k] in more;
  }

  lemma {:induction false} PosedWithin(workers: seq<WorkerConfig>, v: View, o: TaskOptions, states: WorkerStates)
    requires KeyedById(v.tasks)
    ensures forall p | Posed(workers, v, o, states, p) ::
              && p.order < |workers|
              && workers[p.order].enabled && workers[p.order].name in states && Targets(o, workers[p.order])
  {
    hide Targets, ProblemOn, Nodes, FreeOnNode, Available;
  }

  /** The loop over the configured workers. */
  method AllProblems(workers: seq<WorkerConfig>, v: View, o: TaskOptions, states: WorkerStates)
    returns (ps: seq<NodeProblem>)
    requires ValidWorkers(workers) && KeyedById(v.tasks)
    ensures forall p :: p in ps <==> Posed(workers, v, o, states, p)
    ensures Apart(ps)
  {
    var available := AvailableGpusByWorker(workers, v, o, states, None);
    assert Excluding(v, None) == v;
    PosedWithin(workers, v, o, states);
    hide Available, Posed, Targets, Apart, Held;
    ps := [];
    NoneApart();
    for i := 0 to |workers|
      invariant forall p :: p in ps <==> Posed(workers, v, o, states, p) && p.order < i
      invariant Apart(ps)
    {
      var w := workers[i];
      if w.enabled && w.name in states && Targets(o, w) {
        var more := ProblemsOn(workers, v, o, states, i, available[w.name]);
        ApartJoin(ps, more, i);
        ps := ps + more;
      }
    }
  }

  /** Every victim subset of every search, compared by key. */
  method SearchAll(ps: seq<NodeProblem>) returns (best: Option<Proposal>)
    requires Apart(ps)
    ensures best.Some? ==> best.value.Valid() && best.value.problem in ps
    ensures forall p, pick | p in ps :: Unbeaten(best, Proposal(p, pick))
  {
    best := None;
    for i := 0 to |ps|
      invariant best.Some? ==> best.value.Valid() && best.value.problem in ps[..i]
      invariant forall p, pick | p in ps[..i] :: Unbeaten(best, Proposal(p, pick))
    {
      assert ps[..i + 1] == ps[..i] + [ps[i]];
      best := SearchNode(best, ps[i]);
    }
    assert ps[..|ps|] == ps;
  }

  method FindNumaPreemptionPlan(workers: seq<WorkerConfig>, v: View, o: TaskOptions, states: WorkerStates)
    returns (plan: Option<NumaPreemptionPlan>, ghost best: Option<Proposal>)
    requires ValidWorkers(workers) && KeyedById(v.tasks)
    ensures plan.Some? <==> best.Some?
    ensures !WantsNode(o) ==> plan.None?
    ensures WantsNode(o) ==> LeastProposal(best, workers, v, o, states)
    ensures plan.Some? ==>
              && best.value.Valid() && best.value.problem.order < |workers|
              && plan.value == NumaPreemptionPlan(workers[best.value.problem.order], best.value.problem.node,
                 VictimTasks(best.value.Victims()))
  {
    if !WantsNode(o) {
      return None, None;
    }
    var ps := AllProblems(workers, v, o, states);
    var r := SearchAll(ps);
    best := r;
    plan := if r.Some? then
      Some(NumaPreemptionPlan(workers[r.value.problem.order], r.value.problem.node, VictimTasks(r.value.Victims())))
    else None;
  }

  /** The chosen victims are irredundant: sparing any one of them leaves too few GPUs on the node or too few slots. */
  lemma {:induction false} PlanIsIrredundant(workers: seq<WorkerConfig>, v: View, o: TaskOptions, states: WorkerStates,
                                             best: Proposal, k: nat)
    requires KeyedById(v.tasks)
    requires LeastProposal(Some(best), workers, v, o, states) && k < |best.pick|
    ensures !Sufficient(best.problem, Chosen(best.problem.options, Drop(best.pick, k)))
  {
    forall pick
      ensures Unbeaten(Some(best), Proposal(best.problem, pick))
    {
    }
    BestIsIrredundant(best, k);
  }

  // ----- what the plan promises the dispatcher -----

  lemma {:induction false} OptionsAreCandidates(eligible: seq<Task>, reported: seq<GpuState>, node: int, o: TaskOptions)
    ensures forall x | x in OptionsOn(eligible, reported, node, o) ::
              x.victim in eligible && x.gpus == FreedOnNode(x.victim, reported, node, o) && x.gpus != {}
    ensures DistinctIds(eligible) ==>
              forall i, j | 0 <= i < j < |OptionsOn(eligible, reported, node, o)| ::
                OptionsOn(eligible, reported, node, o)[i].victim.id != OptionsOn(eligible, reported, node,
                  o)[j].victim.id
  {
    if eligible != [] {
      var n := |eligible| - 1;
      OptionsAreCandidates(eligible[..n], reported, node, o);
      assert eligible == eligible[..n] + [eligible[n]];
      var rest := OptionsOn(eligible[..n], reported, node, o);
      forall i | 0 <= i < |rest| && DistinctIds(eligible)
        ensures rest[i].victim.id != eligible[n].id
      {
        assert rest[i].victim in eligible[..n];
      }
    }
  }

  lemma {:induction false} ChosenVictims(options: seq<VictimOption>, pick: seq<nat>)
    requires Subset(pick, 0, |options|)
    requires forall i, j | 0 <= i < j < |options| :: options[i].victim.id != options[j].victim.id
    ensures DistinctIds(VictimTasks(Chosen(options, pick)))
    ensures forall t | t in VictimTasks(Chosen(options, pick)) :: exists k ::
              0 <= k < |pick| && options[pick[k]].victim == t
  {
    if pick != [] {
      SubsetTail(pick, 0, |options|);
      SubsetWidens(pick[1..], pick[0] + 1, |options|);
      ChosenVictims(options, pick[1..]);
      var rest := VictimTasks(Chosen(options, pick[1..]));
      forall t | t in rest
        ensures t.id != options[pick[0]].victim.id
        ensures exists k :: 0 <= k < |pick| && options[pick[k]].victim == t
      {
        var k :| 0 <= k < |pick| - 1 && options[pick[1..][k]].victim == t;
        assert pick[k + 1] == pick[1..][k];
      }
      assert options[pick[0]].victim == VictimTasks(Chosen(options, pick))[0];
    }
  }

  lemma {:induction false} ChosenAreEligible(options: seq<VictimOption>, pick: seq<nat>, eligible: seq<Task>)
    requires Subset(pick, 0, |options|)
    requires forall i, j | 0 <= i < j < |options| :: options[i].victim.id != options[j].victim.id
    requires forall x | x in options :: x.victim in eligible
    ensures forall t | t in VictimTasks(Chosen(options, pick)) :: t in eligible
  {
    ChosenVictims(options, pick);
    hide Chosen, VictimTasks;
    forall t | t in VictimTasks(Chosen(options, pick))
      ensures t in eligible
    {
      var k :| 0 <= k < |pick| && options[pick[k]].victim == t;
      assert options[pick[k]] in options;
    }
  }

  lemma {:induction false} SubsetWidens(pick: seq<nat>, lo: nat, n: nat)
    requires Subset(pick, lo, n)
    ensures Subset(pick, 0, n)
  {
  }

  /**
   * Every victim of a proposal runs on its worker, has a lower priority, and is background or preemptible by consent.
   */
  lemma {:induction false} ProposalVictims(workers: seq<WorkerConfig>, v: View, o: TaskOptions, states: WorkerStates,
                                           best: Proposal)
    requires KeyedById(v.tasks)
    requires best.Valid() && Posed(workers, v, o, states, best.problem)
    ensures DistinctIds(VictimTasks(best.Victims()))
    ensures forall t | t in VictimTasks(best.Victims()) ::
              t.id in OnWorker(v.tasks, workers[best.problem.order].name) && v.tasks[t.id] == t
                && MayPreempt(NumaRule, o, t)
  {
    var w := workers[best.problem.order];
    var eligible := Candidates(NumaRule, o, v.tasks, w.name);
    CandidatesMembers(NumaRule, o, v.tasks, w.name);
    OptionsAreCandidates(eligible, StatesOf(states, w.name), best.problem.node, o);
    ChosenVictims(best.problem.options, best.pick);
    ChosenAreEligible(best.problem.options, best.pick, eligible);
  }
}
