/** What the load of a set of GPUs measures, and so which set `_select_gpu_set` picks, said of the GPUs themselves. */
module SelectionLaws {
  import opened Models
  import opened GpuSelection

  // ----- totals -----

  lemma TotalsOfOne(g: GpuState)
    ensures TotalUtilization([g]) == g.utilizationPercent && TotalMemory([g]) == g.memoryUsedMb
  {
    assert [g][1..] == [];
  }

  /** With `TotalsOfOne` this makes the totals sums: each GPU counts once, and the order does not matter. */
  lemma {:induction false} TotalsAdd(a: seq<GpuState>, b: seq<GpuState>)
    ensures TotalUtilization(a + b) == TotalUtilization(a) + TotalUtilization(b)
    ensures TotalMemory(a + b) == TotalMemory(a) + TotalMemory(b)
    ensures TotalUtilization(b + a) == TotalUtilization(a + b) && TotalMemory(b + a) == TotalMemory(a + b)
  {
    TotalsAppend(a, b);
    TotalsAppend(b, a);
  }

  lemma {:induction false} TotalsAppend(a: seq<GpuState>, b: seq<GpuState>)
    ensures TotalUtilization(a + b) == TotalUtilization(a) + TotalUtilization(b)
    ensures TotalMemory(a + b) == TotalMemory(a) + TotalMemory(b)
  {
    if a == [] {
      assert a + b == b;
    } else {
      assert (a + b)[1..] == a[1..] + b;
      TotalsAppend(a[1..], b);
    }
  }

  lemma {:induction false} TotalsIgnoreOrder(a: seq<GpuState>, b: seq<GpuState>)
    requires multiset(a) == multiset(b)
    ensures TotalUtilization(a) == TotalUtilization(b) && TotalMemory(a) == TotalMemory(b)
  {
    if a == [] {
      assert |multiset(b)| == 0;
    } else {
      assert a == [a[0]] + a[1..];
      assert a[0] in multiset(b);
      var k :| 0 <= k < |b| && b[k] == a[0];
      var rest := b[..k] + b[k + 1..];
      assert b == b[..k] + ([b[k]] + b[k + 1..]);
      TotalsAdd([b[k]], b[k + 1..]);
      TotalsAdd(b[..k], [b[k]] + b[k + 1..]);
      TotalsAdd(b[..k], b[k + 1..]);
      TotalsOfOne(b[k]);
      assert multiset(rest) == multiset(b) - multiset{b[k]};
      TotalsIgnoreOrder(a[1..], rest);
    }
  }

  // ----- extremes -----

  /** Nothing in `s` is busier than this. */
  ghost predicate Busiest(g: GpuState, s: seq<GpuState>) {
    g in s && forall h | h in s :: h.utilizationPercent <= g.utilizationPercent
  }

  ghost predicate Lowest(g: GpuState, s: seq<GpuState>) {
    g in s && forall h | h in s :: g.index <= h.index
  }

  lemma {:induction false} MaxIsBusiest(s: seq<GpuState>) returns (g: GpuState)
    requires s != []
    ensures Busiest(g, s) && MaxUtilization(s) == g.utilizationPercent
  {
    g := s[0];
    assert s == [s[0]] + s[1..];
    if |s| > 1 {
      var other := MaxIsBusiest(s[1..]);
      if other.utilizationPercent > g.utilizationPercent {
        g := other;
      }
    }
  }

  lemma {:induction false} FirstIsLowest(s: seq<GpuState>) returns (g: GpuState)
    requires s != []
    ensures Lowest(g, s) && FirstIndex(s) == g.index
  {
    g := s[0];
    assert s == [s[0]] + s[1..];
    if |s| > 1 {
      var other := FirstIsLowest(s[1..]);
      if other.index < g.index {
        g := other;
      }
    }
  }

  // ----- which set is picked -----

  /** The sets the selection is to be compared with: as many GPUs, on one node if any node can hold them. */
  ghost predicate Permitted(q: seq<GpuState>, gpus: seq<GpuState>, count: nat) {
    Choice(q, gpus, count) && (2 <= count && NodeFits(gpus, count) ==> NodeLocal(q))
  }

  /** A load is at most another's as numbers: total utilization, busiest GPU, total memory, lowest index. */
  lemma {:induction false} NotLighterMeans(r: seq<GpuState>, q: seq<GpuState>, a: GpuState, b: GpuState, c: GpuState,
                                           d: GpuState)
    requires r != [] && |q| == |r| && !Lighter(Load(q), Load(r))
    requires Busiest(a, r) && Busiest(b, q) && Lowest(c, r) && Lowest(d, q)
    ensures TotalUtilization(r) <= TotalUtilization(q)
    ensures TotalUtilization(r) == TotalUtilization(q) ==>
              && a.utilizationPercent <= b.utilizationPercent
              && (a.utilizationPercent == b.utilizationPercent ==>
                    && TotalMemory(r) <= TotalMemory(q)
                    && (TotalMemory(r) == TotalMemory(q) ==> c.index <= d.index))
  {
    AverageOrder(TotalUtilization(q), TotalUtilization(r), |r|);
    var w := MaxIsBusiest(r);
    var x := MaxIsBusiest(q);
    var y := FirstIsLowest(r);
    var z := FirstIsLowest(q);
  }

  /**
   * No permitted set has a smaller total utilization; of those with the same, none has its busiest GPU less
   * busy; of those, none has less memory in use in total; of those, none has a lower lowest index.
   */
  lemma {:induction false} SelectedIsLightest(r: seq<GpuState>, gpus: seq<GpuState>, count: nat, q: seq<GpuState>,
                                              a: GpuState, b: GpuState, c: GpuState, d: GpuState)
    requires count > 0 && BestSet(r, gpus, count) && Permitted(q, gpus, count)
    requires Busiest(a, r) && Busiest(b, q) && Lowest(c, r) && Lowest(d, q)
    ensures TotalUtilization(r) <= TotalUtilization(q)
    ensures TotalUtilization(r) == TotalUtilization(q) ==>
              && a.utilizationPercent <= b.utilizationPercent
              && (a.utilizationPercent == b.utilizationPercent ==>
                    && TotalMemory(r) <= TotalMemory(q)
                    && (TotalMemory(r) == TotalMemory(q) ==> c.index <= d.index))
  {
    SubsetSizes(multiset(q), multiset(gpus));
    NotLighterMeans(r, q, a, b, c, d);
  }

  // ----- the set is determined -----

  /** The selected GPUs are listed by utilization, then memory in use, then index. */
  lemma {:induction false} SelectionIsListed(r: seq<GpuState>, gpus: seq<GpuState>, count: nat, i: nat, j: nat)
    requires BestSet(r, gpus, count) && i < j < |r|
    ensures r[i].utilizationPercent <= r[j].utilizationPercent
    ensures r[i].utilizationPercent == r[j].utilizationPercent ==> r[i].memoryUsedMb <= r[j].memoryUsedMb
    ensures r[i].utilizationPercent == r[j].utilizationPercent && r[i].memoryUsedMb == r[j].memoryUsedMb ==>
              r[i].index <= r[j].index
  {
    assert Preferred(r[i], r[j]);
  }

  lemma {:induction false} BothDominate(a: seq<GpuState>, b: seq<GpuState>, gpus: seq<GpuState>)
    requires DistinctIndexes(gpus) && multiset(a) <= multiset(gpus) && multiset(b) <= multiset(gpus)
    requires Dominates(a, b) && Dominates(b, a)
    ensures a == b
  {
    forall i | 0 <= i < |a|
      ensures a[i] == b[i]
    {
      assert Preferred(a[i], b[i]) && Preferred(b[i], a[i]);
      assert a[i] in multiset(gpus) && b[i] in multiset(gpus);
      var x :| 0 <= x < |gpus| && gpus[x] == a[i];
      var y :| 0 <= y < |gpus| && gpus[y] == b[i];
      assert x == y;
    }
  }

  /** Two local sets with the same lowest index are on the same node. */
  lemma {:induction false} SameNode(a: seq<GpuState>, b: seq<GpuState>, gpus: seq<GpuState>)
    requires DistinctIndexes(gpus) && multiset(a) <= multiset(gpus) && multiset(b) <= multiset(gpus)
    requires a != [] && b != [] && NodeLocal(a) && NodeLocal(b) && FirstIndex(a) == FirstIndex(b)
    ensures NodeLocal(a + b)
  {
    var g := FirstIsLowest(a);
    var h := FirstIsLowest(b);
    assert g in multiset(gpus) && h in multiset(gpus);
    var x :| 0 <= x < |gpus| && gpus[x] == g;
    var y :| 0 <= y < |gpus| && gpus[y] == h;
    assert x == y;
    var m :| SingleNode(a, m);
    var n :| SingleNode(b, n);
    assert m == n;
    assert SingleNode(a + b, m);
  }

  /** The order, the node and the GPUs are all determined: there is one best set. */
  lemma {:induction false} SelectionIsUnique(a: seq<GpuState>, b: seq<GpuState>, gpus: seq<GpuState>, count: nat)
    requires DistinctIndexes(gpus) && BestSet(a, gpus, count) && BestSet(b, gpus, count)
    ensures a == b
  {
    if a == [] {
    } else {
      if |a| >= 2 && NodeFits(gpus, |a|) {
        LocalAlike(a, b, gpus, count);
      }
      assert |a| >= 2 && NodeFits(gpus, |a|) ==> NodeLocal(a + b) && NodeLocal(b + a);
      assert Choice(a, gpus, |b|) && Choice(b, gpus, |a|);
      BothDominate(a, b, gpus);
    }
  }

  lemma {:induction false} AllOnNode(q: seq<GpuState>, n: int, a: seq<GpuState>)
    requires SingleNode(q, n) && multiset(a) == multiset(q)
    ensures SingleNode(a, n)
  {
    forall i | 0 <= i < |a|
      ensures a[i].numaNode == Some(n)
    {
      assert a[i] in multiset(q);
    }
  }

  lemma {:induction false} LocalAlike(a: seq<GpuState>, b: seq<GpuState>, gpus: seq<GpuState>, count: nat)
    requires DistinctIndexes(gpus) && BestSet(a, gpus, count) && BestSet(b, gpus, count)
    requires |a| >= 2 && NodeFits(gpus, |a|)
    ensures NodeLocal(a + b) && NodeLocal(b + a)
  {
    hide Foremost;
    if count <= |gpus| {
      assert Choice(a, gpus, count) && Choice(b, gpus, count);
      assert !Lighter(Load(a), Load(b)) && !Lighter(Load(b), Load(a));
      SameNode(a, b, gpus);
      SameNode(b, a, gpus);
    } else {
      var q :| Choice(q, gpus, |a|) && NodeLocal(q);
      FullChoice(q, gpus);
      FullChoice(a, gpus);
      FullChoice(b, gpus);
      var n :| SingleNode(q, n);
      AllOnNode(q, n, a);
      AllOnNode(q, n, b);
      assert SingleNode(a + b, n) && SingleNode(b + a, n);
    }
  }
}
