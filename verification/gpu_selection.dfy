/** `_select_gpu_set` and the load keys of gpu_watcher/scheduler.py, and why the greedy choice is optimal. */
module GpuSelection {
  import opened Models

  // ----- preference order -----

  /** `_gpu_preference_key` order: utilization, then memory in use, then index. */
  predicate Preferred(a: GpuState, b: GpuState) {
    || a.utilizationPercent < b.utilizationPercent
    || (a.utilizationPercent == b.utilizationPercent
        && (a.memoryUsedMb < b.memoryUsedMb || (a.memoryUsedMb == b.memoryUsedMb && a.index <= b.index)))
  }

  ghost predicate Sorted(s: seq<GpuState>) {
    forall i, j | 0 <= i < j < |s| :: Preferred(s[i], s[j])
  }

  function Insert(x: GpuState, s: seq<GpuState>): (r: seq<GpuState>)
    ensures |r| == |s| + 1
    ensures multiset(r) == multiset(s) + multiset{x}
  {
    if s == [] then [x]
    else if Preferred(x, s[0]) then [x] + s
    else
      assert s == [s[0]] + s[1..];
      [s[0]] + Insert(x, s[1..])
  }

  function SortByPreference(s: seq<GpuState>): (r: seq<GpuState>)
    ensures |r| == |s|
    ensures multiset(r) == multiset(s)
  {
    if s == [] then []
    else
      assert s == [s[0]] + s[1..];
      Insert(s[0], SortByPreference(s[1..]))
  }

  lemma {:induction false} InsertSorted(x: GpuState, s: seq<GpuState>)
    requires Sorted(s)
    ensures Sorted(Insert(x, s))
  {
    if s != [] && !Preferred(x, s[0]) {
      var r := Insert(x, s[1..]);
      InsertSorted(x, s[1..]);
      forall j | 0 <= j < |r|
        ensures Preferred(s[0], r[j])
      {
        assert r[j] in multiset(r);
        assert r[j] == x || r[j] in s[1..];
      }
    }
  }

  lemma {:induction false} SortIsSorted(s: seq<GpuState>)
    ensures Sorted(SortByPreference(s))
  {
    if s != [] {
      SortIsSorted(s[1..]);
      InsertSorted(s[0], SortByPreference(s[1..]));
    }
  }

  // ----- the load of a set of GPUs -----

  datatype LoadKey = LoadKey(averageUtilization: real, maxUtilization: int, totalMemory: int, firstIndex: int)

  predicate Lighter(a: LoadKey, b: LoadKey) {
    || a.averageUtilization < b.averageUtilization
    || (a.averageUtilization == b.averageUtilization
        && (|| a.maxUtilization < b.maxUtilization
            || (a.maxUtilization == b.maxUtilization
                && (|| a.totalMemory < b.totalMemory
                    || (a.totalMemory == b.totalMemory && a.firstIndex < b.firstIndex)))))
  }

  function TotalUtilization(s: seq<GpuState>): int {
    if s == [] then 0 else s[0].utilizationPercent + TotalUtilization(s[1..])
  }

  function TotalMemory(s: seq<GpuState>): int {
    if s == [] then 0 else s[0].memoryUsedMb + TotalMemory(s[1..])
  }

  function MaxUtilization(s: seq<GpuState>): int
    requires s != []
  {
    if |s| == 1 || s[0].utilizationPercent >= MaxUtilization(s[1..]) then s[0].utilizationPercent
    else MaxUtilization(s[1..])
  }

  function FirstIndex(s: seq<GpuState>): int
    requires s != []
  {
    if |s| == 1 || s[0].index <= FirstIndex(s[1..]) then s[0].index else FirstIndex(s[1..])
  }

  function Load(s: seq<GpuState>): LoadKey
    requires s != []
  {
    LoadKey(TotalUtilization(s) as real / |s| as real, MaxUtilization(s), TotalMemory(s), FirstIndex(s))
  }

  lemma {:induction false} InsertTotals(x: GpuState, s: seq<GpuState>)
    ensures TotalUtilization(Insert(x, s)) == TotalUtilization([x] + s)
    ensures TotalMemory(Insert(x, s)) == TotalMemory([x] + s)
  {
    assert ([x] + s)[1..] == s;
    if s != [] && !Preferred(x, s[0]) {
      InsertTotals(x, s[1..]);
      assert ([x] + s[1..])[1..] == s[1..];
      assert Insert(x, s)[1..] == Insert(x, s[1..]);
    }
  }

  lemma {:induction false} InsertExtremes(x: GpuState, s: seq<GpuState>)
    ensures MaxUtilization(Insert(x, s)) == MaxUtilization([x] + s)
    ensures FirstIndex(Insert(x, s)) == FirstIndex([x] + s)
  {
    assert ([x] + s)[1..] == s;
    if s != [] && !Preferred(x, s[0]) {
      InsertExtremes(x, s[1..]);
      assert ([x] + s[1..])[1..] == s[1..];
      assert Insert(x, s)[1..] == Insert(x, s[1..]);
    }
  }

  lemma {:induction false} SortKeepsLoad(s: seq<GpuState>)
    requires s != []
    ensures Load(SortByPreference(s)) == Load(s)
  {
    SortKeepsTotals(s);
  }

  lemma {:induction false} SortKeepsTotals(s: seq<GpuState>)
    ensures TotalUtilization(SortByPreference(s)) == TotalUtilization(s)
    ensures TotalMemory(SortByPreference(s)) == TotalMemory(s)
    ensures s != [] ==> MaxUtilization(SortByPreference(s)) == MaxUtilization(s)
    ensures s != [] ==> FirstIndex(SortByPreference(s)) == FirstIndex(s)
  {
    if s != [] {
      SortKeepsTotals(s[1..]);
      InsertTotals(s[0], SortByPreference(s[1..]));
      InsertExtremes(s[0], SortByPreference(s[1..]));
      assert ([s[0]] + SortByPreference(s[1..]))[1..] == SortByPreference(s[1..]);
    }
  }

  // ----- element-wise domination -----

  /** `q` draws `count` GPUs from `gpus`, none of them twice. */
  ghost predicate Choice(q: seq<GpuState>, gpus: seq<GpuState>, count: nat) {
    |q| == count && multiset(q) <= multiset(gpus)
  }

  ghost predicate Dominates(p: seq<GpuState>, q: seq<GpuState>) {
    |p| == |q| && forall i | 0 <= i < |p| :: Preferred(p[i], q[i])
  }

  lemma {:induction false} BestIsFirst(s: seq<GpuState>, q: seq<GpuState>)
    requires Sorted(s) && Sorted(q) && DistinctIndexes(s)
    requires s != [] && s[0] in q && q[0] in s
    ensures q[0] == s[0]
  {
    var j :| 0 <= j < |q| && q[j] == s[0];
    var i :| 0 <= i < |s| && s[i] == q[0];
    assert j > 0 ==> Preferred(q[0], q[j]);
    assert i > 0 ==> Preferred(s[0], s[i]);
  }

  lemma {:induction false} DominatesCons(p: seq<GpuState>, q: seq<GpuState>)
    requires |p| == |q| > 0 && Preferred(p[0], q[0]) && Dominates(p[1..], q[1..])
    ensures Dominates(p, q)
  {
    forall i | 0 <= i < |p|
      ensures Preferred(p[i], q[i])
    {
      if i > 0 {
        assert p[i] == p[1..][i - 1] && q[i] == q[1..][i - 1];
      }
    }
  }

  lemma {:induction false} DominatesEarlier(s: seq<GpuState>, q: seq<GpuState>)
    requires Sorted(s) && |q| < |s| && Dominates(s[1..][..|q|], q)
    ensures Dominates(s[..|q|], q)
  {
    forall i | 0 <= i < |q|
      ensures Preferred(s[..|q|][i], q[i])
    {
      assert Preferred(s[i], s[i + 1]) && s[i + 1] == s[1..][..|q|][i];
    }
  }

  lemma {:induction false} TailsStaySubset(s: seq<GpuState>, q: seq<GpuState>)
    requires q != [] && s != [] && q[0] == s[0]
    requires multiset(q) <= multiset(s)
    ensures multiset(q[1..]) <= multiset(s[1..])
  {
    assert q == [q[0]] + q[1..] && s == [s[0]] + s[1..];
    assert multiset(q) == multiset{q[0]} + multiset(q[1..]);
    assert multiset(s) == multiset{q[0]} + multiset(s[1..]);
    forall g
      ensures multiset(q[1..])[g] <= multiset(s[1..])[g]
    {
      assert multiset(q)[g] <= multiset(s)[g];
    }
  }

  lemma {:induction false} AbsentHeadDrops(s: seq<GpuState>, q: seq<GpuState>)
    requires s != [] && s[0] !in q
    requires multiset(q) <= multiset(s)
    ensures multiset(q) <= multiset(s[1..])
  {
    assert s == [s[0]] + s[1..];
    assert s[0] !in multiset(q);
  }

  /** The i-th best GPU overall is at least as good as the i-th best of any choice. */
  lemma {:induction false} SortedPrefixDominates(s: seq<GpuState>, q: seq<GpuState>)
    requires Sorted(s) && Sorted(q) && DistinctIndexes(s)
    requires multiset(q) <= multiset(s)
    ensures |q| <= |s| && Dominates(s[..|q|], q)
  {
    if q != [] {
      assert q[0] in multiset(s);
      if s[0] in q {
        BestIsFirst(s, q);
        TailsStaySubset(s, q);
        SortedPrefixDominates(s[1..], q[1..]);
        assert s[..|q|][1..] == s[1..][..|q| - 1];
        DominatesCons(s[..|q|], q);
      } else {
        AbsentHeadDrops(s, q);
        SortedPrefixDominates(s[1..], q);
        DominatesEarlier(s, q);
      }
    }
  }

  lemma {:induction false} DominatingUtilization(p: seq<GpuState>, q: seq<GpuState>)
    requires Dominates(p, q)
    ensures TotalUtilization(p) <= TotalUtilization(q)
    ensures TotalUtilization(p) == TotalUtilization(q) ==>
              forall i | 0 <= i < |p| :: p[i].utilizationPercent == q[i].utilizationPercent
  {
    if p != [] {
      assert Preferred(p[0], q[0]);
      assert forall i | 0 <= i < |p| - 1 :: p[1..][i] == p[i + 1] && q[1..][i] == q[i + 1];
      DominatingUtilization(p[1..], q[1..]);
    }
  }

  lemma {:induction false} EqualUtilization(p: seq<GpuState>, q: seq<GpuState>)
    requires Dominates(p, q) && p != []
    requires forall i | 0 <= i < |p| :: p[i].utilizationPercent == q[i].utilizationPercent
    ensures MaxUtilization(p) == MaxUtilization(q)
    ensures TotalMemory(p) <= TotalMemory(q)
    ensures TotalMemory(p) == TotalMemory(q) ==> FirstIndex(p) <= FirstIndex(q)
    ensures TotalMemory(p) == TotalMemory(q) ==>
              forall i | 0 <= i < |p| :: p[i].memoryUsedMb == q[i].memoryUsedMb
  {
    assert Preferred(p[0], q[0]);
    if |p| > 1 {
      assert forall i | 0 <= i < |p| - 1 :: p[1..][i] == p[i + 1] && q[1..][i] == q[i + 1];
      EqualUtilization(p[1..], q[1..]);
    }
  }

  /** Element-wise better GPUs never make a heavier set. */
  lemma {:induction false} DominatingIsLighter(p: seq<GpuState>, q: seq<GpuState>)
    requires Dominates(p, q) && p != []
    ensures !Lighter(Load(q), Load(p))
  {
    DominatingUtilization(p, q);
    AverageOrder(TotalUtilization(p), TotalUtilization(q), |p|);
    if TotalUtilization(p) == TotalUtilization(q) {
      EqualUtilization(p, q);
    }
  }

  lemma AverageOrder(a: int, b: int, n: nat)
    requires n > 0
    ensures a < b ==> a as real / n as real < b as real / n as real
    ensures a == b ==> a as real / n as real == b as real / n as real
  {
  }

  // ----- optimality of the sorted prefix -----

  lemma {:induction false} ChoiceIsNoLighterThanPrefix(ordered: seq<GpuState>, q: seq<GpuState>, count: nat)
    requires Sorted(ordered) && DistinctIndexes(ordered)
    requires count > 0 && Choice(q, ordered, count)
    ensures count <= |ordered| && !Lighter(Load(q), Load(ordered[..count]))
  {
    var sorted := SortByPreference(q);
    SortIsSorted(q);
    SortedPrefixDominates(ordered, sorted);
    DominatingIsLighter(ordered[..count], sorted);
    SortKeepsLoad(q);
  }

  // ----- multisets of GPUs -----

  lemma SubsetSizes<T>(a: multiset<T>, b: multiset<T>)
    requires a <= b
    ensures |a| <= |b|
    ensures |a| == |b| ==> a == b
  {
    assert b == a + (b - a);
  }

  lemma {:induction false} FullChoice(q: seq<GpuState>, gpus: seq<GpuState>)
    requires multiset(q) <= multiset(gpus) && |q| == |gpus|
    ensures multiset(q) == multiset(gpus)
  {
    SubsetSizes(multiset(q), multiset(gpus));
  }

  lemma {:induction false} PrefixIsSubset(s: seq<GpuState>, k: nat)
    requires k <= |s|
    ensures multiset(s[..k]) <= multiset(s)
  {
    assert s == s[..k] + s[k..];
  }

  lemma {:induction false} OnceEach(s: seq<GpuState>, g: GpuState)
    requires DistinctIndexes(s)
    ensures multiset(s)[g] <= 1
  {
    if s != [] {
      assert s == [s[0]] + s[1..];
      OnceEach(s[1..], g);
      if g == s[0] && g in s[1..] {
        var j :| 1 <= j < |s| && s[j] == g;
      }
    }
  }

  lemma {:induction false} SubsetIsDistinct(gpus: seq<GpuState>, r: seq<GpuState>)
    requires DistinctIndexes(gpus) && multiset(r) <= multiset(gpus)
    ensures DistinctIndexes(r)
  {
    forall i, j | 0 <= i < j < |r|
      ensures r[i].index != r[j].index
    {
      assert r == r[..i] + [r[i]] + r[i + 1..j] + [r[j]] + r[j + 1..];
      assert r[i] in multiset(gpus) && r[j] in multiset(gpus);
      assert r[i] == r[j] ==> multiset(r)[r[i]] >= 2;
      OnceEach(gpus, r[i]);
      if r[i] != r[j] {
        var x :| 0 <= x < |gpus| && gpus[x] == r[i];
        var y :| 0 <= y < |gpus| && gpus[y] == r[j];
      }
    }
  }

  // ----- NUMA nodes -----

  function OnNode(s: seq<GpuState>, node: int): seq<GpuState> {
    if s == [] then []
    else
      if s[0].numaNode == Some(node) then [s[0]] + OnNode(s[1..], node) else OnNode(s[1..], node)
  }

  lemma {:induction false} OnNodeMembers(s: seq<GpuState>, node: int)
    ensures multiset(OnNode(s, node)) <= multiset(s)
    ensures forall g | g in OnNode(s, node) :: g in s && g.numaNode == Some(node)
  {
    if s != [] {
      assert s == [s[0]] + s[1..];
      OnNodeMembers(s[1..], node);
    }
  }

  ghost predicate SingleNode(s: seq<GpuState>, node: int) {
    forall i | 0 <= i < |s| :: s[i].numaNode == Some(node)
  }

  ghost predicate NodeLocal(s: seq<GpuState>) {
    exists node :: SingleNode(s, node)
  }

  lemma {:induction false} OnNodeSorted(s: seq<GpuState>, node: int)
    requires Sorted(s) && DistinctIndexes(s)
    ensures Sorted(OnNode(s, node)) && DistinctIndexes(OnNode(s, node))
  {
    if s != [] {
      OnNodeSorted(s[1..], node);
      OnNodeMembers(s[1..], node);
      var rest := OnNode(s[1..], node);
      forall j | 0 <= j < |rest|
        ensures Preferred(s[0], rest[j]) && s[0].index != rest[j].index
      {
        assert rest[j] in s[1..];
      }
    }
  }

  /** A choice within one node draws from that node's GPUs. */
  lemma {:induction false} SingleNodeChoice(s: seq<GpuState>, q: seq<GpuState>, node: int)
    requires multiset(q) <= multiset(s) && SingleNode(q, node)
    ensures multiset(q) <= multiset(OnNode(s, node))
  {
    forall g
      ensures multiset(q)[g] <= multiset(OnNode(s, node))[g]
    {
      OnNodeCount(s, node, g);
      if g in q {
        assert g.numaNode == Some(node);
      }
    }
  }

  lemma {:induction false} OnNodeCount(s: seq<GpuState>, node: int, g: GpuState)
    ensures multiset(OnNode(s, node))[g] == if g.numaNode == Some(node) then multiset(s)[g] else 0
  {
    if s != [] {
      assert s == [s[0]] + s[1..];
      OnNodeCount(s[1..], node, g);
    }
  }

  // ----- the selection -----

  /** Some known node has room for the whole set. */
  ghost predicate NodeFits(gpus: seq<GpuState>, count: nat) {
    exists q :: Choice(q, gpus, count) && NodeLocal(q)
  }

  /** In preference order, and one by one at least as good as any choice of its size it may be compared with. */
  ghost predicate Foremost(r: seq<GpuState>, gpus: seq<GpuState>) {
    && Sorted(r)
    && forall q | Choice(q, gpus, |r|) && Sorted(q) && (|r| >= 2 && NodeFits(gpus, |r|) ==> NodeLocal(r + q)) ::
         Dominates(r, q)
  }

  /**
   * What `_select_gpu_set` promises: `count` GPUs (all of them when there are fewer), within one NUMA node
   * whenever a node can hold them, and no set of that kind and size carries a lighter load. Among equal
   * loads the preference order decides.
   */
  ghost predicate BestSet(r: seq<GpuState>, gpus: seq<GpuState>, count: nat) {
    && multiset(r) <= multiset(gpus)
    && |r| == (if count <= |gpus| then count else |gpus|)
    && (2 <= count <= |gpus| && NodeFits(gpus, count) ==> NodeLocal(r))
    && (forall q | 0 < count && Choice(q, gpus, count) ::
          (2 <= count && NodeFits(gpus, count) ==> NodeLocal(q)) ==> !Lighter(Load(q), Load(r)))
    && Foremost(r, gpus)
  }

  function GroupOf(groups: map<int, seq<GpuState>>, node: int): seq<GpuState> {
    if node in groups then groups[node] else []
  }

  ghost predicate Grouped(groups: map<int, seq<GpuState>>, s: seq<GpuState>) {
    forall node :: GroupOf(groups, node) == OnNode(s, node)
  }

  lemma {:induction false} OnNodeAppend(s: seq<GpuState>, g: GpuState, node: int)
    ensures OnNode(s + [g], node) == OnNode(s, node) + (if g.numaNode == Some(node) then [g] else [])
  {
    if s == [] {
      assert s + [g] == [g] && [g][1..] == [];
    } else {
      assert (s + [g])[1..] == s[1..] + [g];
      OnNodeAppend(s[1..], g, node);
    }
  }

  lemma {:induction false} GroupedAppend(groups: map<int, seq<GpuState>>, s: seq<GpuState>, g: GpuState)
    requires Grouped(groups, s)
    ensures g.numaNode.None? ==> Grouped(groups, s + [g])
    ensures g.numaNode.Some? ==>
              Grouped(groups[g.numaNode.value := GroupOf(groups, g.numaNode.value) + [g]], s + [g])
  {
    forall node
      ensures OnNode(s + [g], node) == OnNode(s, node) + (if g.numaNode == Some(node) then [g] else [])
    {
      OnNodeAppend(s, g, node);
    }
  }

  /** The dictionary `by_numa`: each known node's GPUs in preference order. */
  method GroupByNode(ordered: seq<GpuState>) returns (nodes: seq<int>, groups: map<int, seq<GpuState>>)
    ensures Grouped(groups, ordered)
    ensures forall n :: n in groups <==> n in nodes
  {
    nodes, groups := [], map[];
    for i := 0 to |ordered|
      invariant Grouped(groups, ordered[..i])
      invariant forall n :: n in groups <==> n in nodes
    {
      var gpu := ordered[i];
      assert ordered[..i + 1] == ordered[..i] + [gpu];
      GroupedAppend(groups, ordered[..i], gpu);
      if gpu.numaNode.Some? {
        var node := gpu.numaNode.value;
        if node !in groups {
          nodes := nodes + [node];
        }
        groups := groups[node := GroupOf(groups, node) + [gpu]];
      }
    }
    assert ordered[..|ordered|] == ordered;
  }

  /** Of the nodes with at least `count` GPUs, one whose best `count` carry the lightest load. */
  ghost predicate LightestNode(best: Option<int>, ordered: seq<GpuState>, count: nat, among: set<int>)
    requires count > 0
  {
    && (best.None? ==> forall n | n in among :: |OnNode(ordered, n)| < count)
    && (best.Some? ==>
          && count <= |OnNode(ordered, best.value)|
          && forall n | n in among && count <= |OnNode(ordered, n)| ::
               !Lighter(Load(OnNode(ordered, n)[..count]), Load(OnNode(ordered, best.value)[..count])))
  }

  lemma {:induction false} LightestNodeExtends(best: Option<int>, next: Option<int>, ordered: seq<GpuState>, count: nat,
                                               among: set<int>, n: int)
    requires count > 0 && LightestNode(best, ordered, count, among)
    requires if count <= |OnNode(ordered, n)| && (best.None? ||
                  Lighter(Load(OnNode(ordered, n)[..count]), Load(OnNode(ordered, best.value)[..count])))
             then next == Some(n) else next == best
    ensures LightestNode(next, ordered, count, among + {n})
  {
  }

  /** `min(same_numa, key=...)`. */
  method LightestGroup(ordered: seq<GpuState>, count: nat) returns (best: Option<int>)
    requires count > 0
    ensures best.None? ==> forall n :: |OnNode(ordered, n)| < count
    ensures best.Some? ==>
              && count <= |OnNode(ordered, best.value)|
              && forall n | count <= |OnNode(ordered, n)| ::
                   !Lighter(Load(OnNode(ordered, n)[..count]), Load(OnNode(ordered, best.value)[..count]))
  {
    var nodes, groups := GroupByNode(ordered);
    best := None;
    ghost var seen: set<int> := {};
    for i := 0 to |nodes|
      invariant seen == set k | 0 <= k < i :: nodes[k]
      invariant LightestNode(best, ordered, count, seen)
    {
      var group := GroupOf(groups, nodes[i]);
      assert group == OnNode(ordered, nodes[i]);
      ghost var previous := best;
      if |group| >= count && (best.None? || Lighter(Load(group[..count]), Load(GroupOf(groups, best.value)[..count]))) {
        best := Some(nodes[i]);
      }
      LightestNodeExtends(previous, best, ordered, count, seen, nodes[i]);
      seen := seen + {nodes[i]};
    }
    forall n | count <= |OnNode(ordered, n)|
      ensures n in seen
    {
      assert GroupOf(groups, n) != [];
    }
  }

  lemma {:induction false} PrefixIsForemost(ordered: seq<GpuState>, gpus: seq<GpuState>, k: nat)
    requires Sorted(ordered) && DistinctIndexes(ordered) && multiset(ordered) == multiset(gpus) && k <= |ordered|
    ensures Foremost(ordered[..k], gpus)
  {
    forall q | Choice(q, gpus, k) && Sorted(q)
      ensures Dominates(ordered[..k], q)
    {
      SortedPrefixDominates(ordered, q);
    }
  }

  lemma {:induction false} GroupIsForemost(ordered: seq<GpuState>, gpus: seq<GpuState>, count: nat, n: int)
    requires Sorted(ordered) && DistinctIndexes(ordered) && multiset(ordered) == multiset(gpus)
    requires 2 <= count <= |OnNode(ordered, n)|
    requires Choice(OnNode(ordered, n)[..count], gpus, count) && SingleNode(OnNode(ordered, n)[..count], n)
    ensures Foremost(OnNode(ordered, n)[..count], gpus)
  {
    var r := OnNode(ordered, n)[..count];
    OnNodeSorted(ordered, n);
    assert NodeFits(gpus, count) by {
      assert NodeLocal(r);
    }
    forall q | Choice(q, gpus, |r|) && Sorted(q) && NodeLocal(r + q)
      ensures Dominates(r, q)
    {
      var m :| SingleNode(r + q, m);
      assert (r + q)[0] == r[0] && forall i | 0 <= i < |q| :: (r + q)[|r| + i] == q[i];
      assert SingleNode(q, n);
      SingleNodeChoice(ordered, q, n);
      SortedPrefixDominates(OnNode(ordered, n), q);
    }
  }

  lemma {:induction false} PrefixIsBest(ordered: seq<GpuState>, gpus: seq<GpuState>, count: nat)
    requires Sorted(ordered) && DistinctIndexes(ordered) && multiset(ordered) == multiset(gpus) && |ordered| == |gpus|
    requires count <= 1 || |gpus| <= count || forall n :: |OnNode(ordered, n)| < count
    ensures BestSet(ordered[..if count <= |ordered| then count else |ordered|], gpus, count)
  {
    var r := ordered[..if count <= |ordered| then count else |ordered|];
    PrefixIsSubset(ordered, |r|);
    PrefixIsForemost(ordered, gpus, |r|);
    hide Foremost;
    if 2 <= count <= |gpus| && NodeFits(gpus, count) {
      var q :| Choice(q, gpus, count) && NodeLocal(q);
      var node :| SingleNode(q, node);
      SingleNodeChoice(ordered, q, node);
      SubsetSizes(multiset(q), multiset(OnNode(ordered, node)));
      assert count == |gpus|;
      FullChoice(q, gpus);
      assert r == ordered;
      forall i | 0 <= i < |r|
        ensures r[i].numaNode == Some(node)
      {
        assert r[i] in multiset(q);
      }
      assert SingleNode(r, node);
    }
    forall q | 0 < count && Choice(q, gpus, count)
      ensures r != [] && !Lighter(Load(q), Load(r))
    {
      ChoiceIsNoLighterThanPrefix(ordered, q, count);
    }
  }

  lemma {:induction false} GroupIsBest(ordered: seq<GpuState>, gpus: seq<GpuState>, count: nat, n: int)
    requires Sorted(ordered) && DistinctIndexes(ordered) && multiset(ordered) == multiset(gpus)
    requires 2 <= count <= |OnNode(ordered, n)|
    requires forall m | |OnNode(ordered, m)| >= count ::
               !Lighter(Load(OnNode(ordered, m)[..count]), Load(OnNode(ordered, n)[..count]))
    ensures BestSet(OnNode(ordered, n)[..count], gpus, count)
  {
    var r := OnNode(ordered, n)[..count];
    OnNodeMembers(ordered, n);
    PrefixIsSubset(OnNode(ordered, n), count);
    SubsetSizes(multiset(r), multiset(gpus));
    forall i | 0 <= i < |r|
      ensures r[i].numaNode == Some(n)
    {
      assert r[i] in OnNode(ordered, n);
    }
    assert SingleNode(r, n) && NodeLocal(r) && Choice(r, gpus, count);
    GroupIsForemost(ordered, gpus, count, n);
    hide Foremost, Sorted, Load, Lighter;
    forall q | Choice(q, gpus, count) && NodeLocal(q)
      ensures !Lighter(Load(q), Load(r))
    {
      var m :| SingleNode(q, m);
      SingleNodeChoice(ordered, q, m);
      OnNodeSorted(ordered, m);
      ChoiceIsNoLighterThanPrefix(OnNode(ordered, m), q, count);
    }
  }

  method SelectGpuSet(gpus: seq<GpuState>, count: nat) returns (r: seq<GpuState>)
    requires DistinctIndexes(gpus)
    ensures BestSet(r, gpus, count)
    ensures DistinctIndexes(r)
  {
    var ordered := SortByPreference(gpus);
    SortIsSorted(gpus);
    SubsetIsDistinct(gpus, ordered);
    if count <= 1 || |ordered| <= count {
      PrefixIsBest(ordered, gpus, count);
      r := ordered[..if count <= |ordered| then count else |ordered|];
    } else {
      var best := LightestGroup(ordered, count);
      if best.Some? {
        GroupIsBest(ordered, gpus, count, best.value);
        var group := OnNode(ordered, best.value);
        r := group[..count];
      } else {
        PrefixIsBest(ordered, gpus, count);
        r := ordered[..count];
      }
    }
    SubsetIsDistinct(gpus, r);
  }
}
