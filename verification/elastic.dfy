/** `_resize_elastic_background_tasks`: what it decides for one running elastic task. */
module Elastic {
  import opened Models
  import opened Lifecycle
  import opened Capacity
  import opened Queries
  import opened Occupancy
  import opened GpuSelection
  import opened Placement

  datatype Resize = Keep | Suspend | Restart(gpus: seq<int>)

  // ----- index lists -----

  /** The listed GPUs that the probe reported, as states. */
  function Reported(indexes: seq<int>, reported: seq<GpuState>): seq<GpuState> {
    if indexes == [] then []
    else
      var s := StateAt(reported, indexes[0]);
      (if s.Some? then [s.value] else []) + Reported(indexes[1..], reported)
  }

  function Additional(available: seq<GpuState>, current: seq<int>): seq<int> {
    if available == [] then []
    else (if available[0].index in current then [] else [available[0].index]) + Additional(available[1..], current)
  }

  function Keeping(current: seq<int>, selected: seq<int>): seq<int> {
    if current == [] then []
    else (if current[0] in selected then [current[0]] else []) + Keeping(current[1..], selected)
  }

  function Outside(selected: seq<int>, current: seq<int>): seq<int> {
    if selected == [] then []
    else (if selected[0] in current then [] else [selected[0]]) + Outside(selected[1..], current)
  }

  /** `list(dict.fromkeys(...))`: first occurrences only. */
  function Dedupe(s: seq<int>): seq<int> {
    if s == [] then []
    else
      var n := |s| - 1;
      Dedupe(s[..n]) + if s[n] in s[..n] then [] else [s[n]]
  }

  lemma {:induction false} DedupeDistinct(s: seq<int>)
    requires Distinct(s)
    ensures Dedupe(s) == s
  {
    if s != [] {
      var n := |s| - 1;
      DedupeDistinct(s[..n]);
      assert s[n] !in s[..n];
      assert s == s[..n] + [s[n]];
    }
  }

  lemma {:induction false} ElementsCount(s: seq<int>)
    requires Distinct(s)
    ensures |Elements(s)| == |s|
  {
    if s != [] {
      var n := |s| - 1;
      ElementsCount(s[..n]);
      assert s == s[..n] + [s[n]];
      assert Elements(s) == Elements(s[..n]) + {s[n]};
    }
  }

  lemma {:induction false} SameElementsSameLength(a: seq<int>, b: seq<int>)
    requires Distinct(a) && Distinct(b) && Elements(a) == Elements(b)
    ensures |a| == |b|
  {
    ElementsCount(a);
    ElementsCount(b);
  }

  lemma {:induction false} DistinctConcat(a: seq<int>, b: seq<int>)
    requires Distinct(a) && Distinct(b) && forall x | x in b :: x !in a
    ensures Distinct(a + b)
  {
    forall i, j | 0 <= i < j < |a + b|
      ensures (a + b)[i] != (a + b)[j]
    {
      if i < |a| <= j {
        assert (a + b)[j] in b;
      }
    }
  }

  lemma {:induction false} AdditionalMembers(available: seq<GpuState>, current: seq<int>)
    requires DistinctIndexes(available)
    ensures Distinct(Additional(available, current))
    ensures forall x :: x in Additional(available, current) <==>
              x !in current && exists g :: g in available && g.index == x
  {
    if available != [] {
      assert available == [available[0]] + available[1..];
      AdditionalMembers(available[1..], current);
      var rest := Additional(available[1..], current);
      forall x | x in rest
        ensures x != available[0].index
      {
        var g :| g in available[1..] && g.index == x;
      }
    }
  }

  lemma {:induction false} ReportedMembers(indexes: seq<int>, reported: seq<GpuState>)
    requires Distinct(indexes)
    ensures DistinctIndexes(Reported(indexes, reported))
    ensures forall g | g in Reported(indexes, reported) :: g.index in indexes && StateAt(reported, g.index) == Some(g)
    ensures forall x | x in indexes && StateAt(reported, x).Some? ::
              StateAt(reported, x).value in Reported(indexes, reported)
    ensures (forall x | x in indexes :: StateAt(reported, x).Some?) ==> |Reported(indexes, reported)| == |indexes|
    ensures (exists x :: x in indexes && StateAt(reported, x).None?) ==> |Reported(indexes, reported)| < |indexes|
  {
    ReportedElements(indexes, reported);
    ReportedCount(indexes, reported);
  }

  lemma {:induction false} ReportedElements(indexes: seq<int>, reported: seq<GpuState>)
    requires Distinct(indexes)
    ensures DistinctIndexes(Reported(indexes, reported))
    ensures forall g | g in Reported(indexes, reported) :: g.index in indexes && StateAt(reported, g.index) == Some(g)
    ensures forall x | x in indexes && StateAt(reported, x).Some? ::
              StateAt(reported, x).value in Reported(indexes, reported)
  {
    if indexes != [] {
      assert indexes == [indexes[0]] + indexes[1..];
      ReportedElements(indexes[1..], reported);
    }
  }

  lemma {:induction false} ReportedCount(indexes: seq<int>, reported: seq<GpuState>)
    ensures (forall x | x in indexes :: StateAt(reported, x).Some?) ==> |Reported(indexes, reported)| == |indexes|
    ensures (exists x :: x in indexes && StateAt(reported, x).None?) ==> |Reported(indexes, reported)| < |indexes|
  {
    if indexes != [] {
      assert indexes == [indexes[0]] + indexes[1..];
      ReportedCount(indexes[1..], reported);
      ReportedLength(indexes[1..], reported);
    }
  }

  lemma {:induction false} ReportedLength(indexes: seq<int>, reported: seq<GpuState>)
    ensures |Reported(indexes, reported)| <= |indexes|
  {
    if indexes != [] {
      ReportedLength(indexes[1..], reported);
    }
  }

  lemma {:induction false} KeepingMembers(current: seq<int>, selected: seq<int>)
    requires Distinct(current)
    ensures Distinct(Keeping(current, selected))
    ensures forall x :: x in Keeping(current, selected) <==> x in current && x in selected
  {
    if current != [] {
      assert current == [current[0]] + current[1..];
      KeepingMembers(current[1..], selected);
    }
  }

  lemma {:induction false} OutsideMembers(selected: seq<int>, current: seq<int>)
    requires Distinct(selected)
    ensures Distinct(Outside(selected, current))
    ensures forall x :: x in Outside(selected, current) <==> x in selected && x !in current
  {
    if selected != [] {
      assert selected == [selected[0]] + selected[1..];
      OutsideMembers(selected[1..], current);
    }
  }

  /** Kept GPUs in their present order, then the new ones. */
  function Desired(current: seq<int>, selected: seq<int>): seq<int> {
    Keeping(current, selected) + Outside(selected, current)
  }

  lemma {:induction false} DesiredIsSelected(current: seq<int>, selected: seq<int>)
    requires Distinct(current) && Distinct(selected)
    ensures Distinct(Desired(current, selected))
    ensures forall x :: x in Desired(current, selected) <==> x in selected
    ensures |Desired(current, selected)| == |selected|
  {
    KeepingMembers(current, selected);
    OutsideMembers(selected, current);
    DistinctConcat(Keeping(current, selected), Outside(selected, current));
    forall x
      ensures x in Desired(current, selected) <==> x in selected
    {
    }
    assert Elements(Desired(current, selected)) == Elements(selected);
    SameElementsSameLength(Desired(current, selected), selected);
  }

  // ----- the decision -----

  /** What one resize step looks at. */
  datatype Situation = Situation(
    options: TaskOptions,
    worker: WorkerConfig,
    current: seq<int>,
    reported: seq<GpuState>,
    available: seq<GpuState>,
    others: nat)
  {
    function Limit(): int {
      ElasticLimit(options, worker, |reported|, others)
    }

    function Extra(): seq<int> {
      Additional(available, current)
    }

    predicate Shrinks() {
      |current| > Limit()
    }

    predicate Grows() {
      |current| < Limit() && Extra() != []
    }

    function Target(): int {
      if Shrinks() then Limit() else Min(Limit(), |current| + |Extra()|)
    }

    function Pool(): seq<GpuState> {
      Reported(if Shrinks() then current else current + Extra(), reported)
    }

    ghost predicate Valid() {
      && options.requestedGpus >= 1
      && reported != [] && DistinctIndexes(reported)
      && Distinct(current) && current != []
      && DistinctIndexes(available) && (forall g | g in available :: g in reported)
    }

    /** Every GPU the task holds appears in the probe. */
    ghost predicate FullyReported() {
      forall x | x in current :: StateAt(reported, x).Some?
    }
  }

  ghost predicate Decision(s: Situation, d: Resize) {
    if !s.Shrinks() && !s.Grows() then d == Keep
    else exists sel :: SelectedFor(s, sel) && d == Outcome(s.current, Desired(s.current, IndexesOf(sel)))
  }

  ghost predicate SelectedFor(s: Situation, sel: seq<GpuState>) {
    s.Target() >= 0 && BestSet(sel, s.Pool(), s.Target()) && DistinctIndexes(sel)
  }

  function Outcome(current: seq<int>, desired: seq<int>): Resize {
    if desired == [] then Suspend else if desired == current then Keep else Restart(desired)
  }

  lemma {:induction false} PoolMembers(s: Situation)
    requires s.Valid()
    ensures DistinctIndexes(s.Pool())
    ensures forall g | g in s.Pool() ::
              g in s.reported && (g.index in s.current || (!s.Shrinks() && g.index in s.Extra()))
    ensures s.FullyReported() ==> |s.Pool()| == |s.current| + if s.Shrinks() then 0 else |s.Extra()|
    ensures !s.FullyReported() ==> |s.Pool()| < |s.current| + if s.Shrinks() then 0 else |s.Extra()|
  {
    AdditionalMembers(s.available, s.current);
    var indexes := if s.Shrinks() then s.current else s.current + s.Extra();
    DistinctConcat(s.current, s.Extra());
    ReportedMembers(indexes, s.reported);
    forall x | x in s.Extra()
      ensures StateAt(s.reported, x).Some?
    {
      var g :| g in s.available && g.index == x;
      assert g in s.reported;
    }
  }

  lemma {:induction false} LimitBounds(s: Situation)
    requires s.Valid()
    ensures 0 <= s.Limit() <= s.options.requestedGpus
    ensures s.worker.maxConcurrentTasks.Some? && s.Limit() > 0 ==>
              s.Limit() + s.others <= s.worker.maxConcurrentTasks.value
  {
  }

  method Decide(s: Situation) returns (d: Resize)
    requires s.Valid()
    ensures Decision(s, d)
  {
    if !s.Shrinks() && !s.Grows() {
      return Keep;
    }
    PoolMembers(s);
    LimitBounds(s);
    var sel := SelectGpuSet(s.Pool(), s.Target());
    assert SelectedFor(s, sel);
    d := Outcome(s.current, Desired(s.current, IndexesOf(sel)));
  }

  // ----- properties -----

  lemma {:induction false} SelectedIndexes(s: Situation, sel: seq<GpuState>)
    requires s.Valid() && SelectedFor(s, sel)
    ensures Distinct(IndexesOf(sel))
    ensures |IndexesOf(sel)| == Min(s.Target(), |s.Pool()|)
    ensures forall x | x in IndexesOf(sel) ::
              StateAt(s.reported, x).Some? && (x in s.current || (!s.Shrinks() && x in s.Extra()))
  {
    hide Foremost, NodeFits, Lighter, Load;
    PoolMembers(s);
    forall x | x in IndexesOf(sel)
      ensures StateAt(s.reported, x).Some? && (x in s.current || (!s.Shrinks() && x in s.Extra()))
    {
      var k :| 0 <= k < |sel| && IndexesOf(sel)[k] == x;
      assert sel[k] in multiset(s.Pool());
      assert sel[k] in s.Pool();
    }
  }

  /** The GPUs of a restart: how many there are, and where they come from. */
  lemma {:induction false} RestartGpus(s: Situation, d: Resize)
    requires s.Valid() && Decision(s, d) && d.Restart?
    ensures Distinct(d.gpus) && d.gpus != [] && d.gpus != s.current
    ensures |d.gpus| == Min(s.Target(), |s.Pool()|)
    ensures forall x | x in d.gpus :: StateAt(s.reported, x).Some? && (x in s.current || (s.Grows() && x in s.Extra()))
  {
    var sel :| SelectedFor(s, sel) && d == Outcome(s.current, Desired(s.current, IndexesOf(sel)));
    SelectedIndexes(s, sel);
    DesiredIsSelected(s.current, IndexesOf(sel));
  }

  /** A restart never exceeds the request, nor the slots the other tasks leave under the worker's cap. */
  lemma {:induction false} RestartWithinLimits(s: Situation, d: Resize)
    requires s.Valid() && Decision(s, d) && d.Restart?
    ensures 1 <= |d.gpus| <= s.options.requestedGpus
    ensures s.worker.maxConcurrentTasks.Some? ==> s.others + |d.gpus| <= s.worker.maxConcurrentTasks.value
  {
    RestartGpus(s, d);
    LimitBounds(s);
  }

  /** A shrink drops GPUs and takes none; when the probe shows all of them it lands on the limit. */
  lemma {:induction false} ShrinkKeepsSubset(s: Situation, d: Resize)
    requires s.Valid() && s.Shrinks() && Decision(s, d)
    ensures d.Suspend? || (d.Restart? && |d.gpus| < |s.current| && forall x | x in d.gpus :: x in s.current)
    ensures d.Restart? && s.FullyReported() ==> |d.gpus| == s.Limit()
  {
    var sel :| SelectedFor(s, sel) && d == Outcome(s.current, Desired(s.current, IndexesOf(sel)));
    SelectedIndexes(s, sel);
    DesiredIsSelected(s.current, IndexesOf(sel));
    PoolMembers(s);
  }

  /** If the probe shows every GPU the task holds, a restart changes the GPU count: there is no same-size migration. */
  lemma {:induction false} RestartChangesCount(s: Situation, d: Resize)
    requires s.Valid() && s.FullyReported() && Decision(s, d) && d.Restart?
    ensures |d.gpus| != |s.current|
    ensures |d.gpus| < |s.current| <==> s.Shrinks()
  {
    RestartGpus(s, d);
    PoolMembers(s);
  }

  ghost function Unreported(indexes: seq<int>, reported: seq<GpuState>): set<int> {
    set x | x in indexes && StateAt(reported, x).None?
  }

  /** The GPUs the task holds that the probe does not show. */
  ghost function Missing(s: Situation): set<int> {
    Unreported(s.current, s.reported)
  }

  lemma {:induction false} PoolSize(indexes: seq<int>, reported: seq<GpuState>)
    requires Distinct(indexes)
    ensures |Reported(indexes, reported)| + |Unreported(indexes, reported)| == |indexes|
  {
    if indexes != [] {
      assert indexes == [indexes[0]] + indexes[1..];
      PoolSize(indexes[1..], reported);
      var rest := Unreported(indexes[1..], reported);
      assert indexes[0] !in rest;
      assert Unreported(indexes, reported) == rest + if StateAt(reported, indexes[0]).None? then {indexes[0]} else {};
    }
  }

  /**
   * Otherwise exactly this happens: a restart keeps the count if and only if the task was to grow and as
   * many of its GPUs are missing from the probe as there are additional ones.
   */
  lemma {:induction false} SameSizeMigrationExactly(s: Situation, d: Resize)
    requires s.Valid() && Decision(s, d)
    ensures (d.Restart? && |d.gpus| == |s.current|) <==> (s.Grows() && |Missing(s)| == |s.Extra()|)
  {
    if s.Shrinks() {
      ShrinkKeepsSubset(s, d);
    } else if s.Grows() {
      hide BestSet, Reported, ElasticLimit;
      var sel :| SelectedFor(s, sel) && d == Outcome(s.current, Desired(s.current, IndexesOf(sel)));
      var desired := Desired(s.current, IndexesOf(sel));
      assert d == Outcome(s.current, desired);
      SelectedIndexes(s, sel);
      DesiredIsSelected(s.current, IndexesOf(sel));
      PoolSizeWhenGrowing(s);
      hide Decision, SelectedFor, Desired, IndexesOf;
      if |Missing(s)| > 0 {
        var x :| x in Missing(s);
        assert x !in IndexesOf(sel);
        assert desired != s.current;
      }
    }
  }

  lemma {:induction false} PoolSizeWhenGrowing(s: Situation)
    requires s.Valid() && s.Grows()
    ensures |s.Pool()| == |s.current| + |s.Extra()| - |Missing(s)|
  {
    var indexes := s.current + s.Extra();
    AdditionalMembers(s.available, s.current);
    DistinctConcat(s.current, s.Extra());
    PoolSize(indexes, s.reported);
    forall x | x in s.Extra()
      ensures StateAt(s.reported, x).Some?
    {
      var g :| g in s.available && g.index == x;
      assert g in s.reported;
    }
    assert Missing(s) == Unreported(indexes, s.reported);
  }

  /** The same probe and the same other tasks, after the restart took effect. */
  function Resized(s: Situation, d: Resize): Situation
    requires d.Restart?
  {
    s.(current := d.gpus)
  }

  /** A task that grew as far as it could holds everything that is available to it. */
  lemma {:induction false} GrownHoldsAll(s: Situation, d: Resize)
    requires s.Valid() && s.FullyReported() && s.Grows()
    requires Decision(s, d) && d.Restart? && |d.gpus| < s.Limit()
    ensures forall g | g in s.available :: g.index in d.gpus
  {
    RestartGpus(s, d);
    PoolMembers(s);
    AdditionalMembers(s.available, s.current);
    DistinctConcat(s.current, s.Extra());
    var all := s.current + s.Extra();
    ElementsCount(all);
    ElementsCount(d.gpus);
    forall x | x in d.gpus
      ensures x in all
    {
    }
    assert |d.gpus| == |all|;
    SubsetWithSameSize(Elements(d.gpus), Elements(all));
    forall g | g in s.available
      ensures g.index in Elements(all)
    {
    }
  }

  /** A shrink lands exactly on the limit. */
  lemma {:induction false} ShrunkIsStable(s: Situation, d: Resize)
    requires s.Valid() && s.FullyReported() && s.Shrinks()
    requires Decision(s, d) && d.Restart?
    ensures !Resized(s, d).Shrinks() && !Resized(s, d).Grows()
  {
    ShrinkKeepsSubset(s, d);
  }

  lemma {:induction false} NothingAdditional(available: seq<GpuState>, current: seq<int>)
    requires forall g | g in available :: g.index in current
    ensures Additional(available, current) == []
  {
    if available != [] {
      assert available[0] in available;
      NothingAdditional(available[1..], current);
    }
  }

  lemma {:induction false} GrownIsStable(s: Situation, d: Resize)
    requires s.Valid() && s.FullyReported() && s.Grows()
    requires Decision(s, d) && d.Restart?
    ensures !Resized(s, d).Shrinks() && !Resized(s, d).Grows()
  {
    RestartGpus(s, d);
    PoolMembers(s);
    hide Decision;
    if |d.gpus| < s.Limit() {
      GrownHoldsAll(s, d);
      NothingAdditional(s.available, d.gpus);
    }
  }

  /** One step reaches a fixed point: resizing again kills and restarts nothing. */
  lemma {:induction false} ResizeIsOneStep(s: Situation, d: Resize, again: Resize)
    requires s.Valid() && s.FullyReported()
    requires Decision(s, d) && d.Restart?
    requires Decision(Resized(s, d), again)
    ensures again == Keep
  {
    if s.Shrinks() {
      ShrunkIsStable(s, d);
    } else {
      GrownIsStable(s, d);
    }
  }

  lemma SubsetWithSameSize<T>(a: set<T>, b: set<T>)
    requires a <= b && |a| == |b|
    ensures a == b
  {
    assert b == a + (b - a);
  }
}
