/** What a resize decides, said of how many GPUs are allowed, which are free, and which the task holds. */
module ElasticLaws {
  import opened Models
  import opened Lifecycle
  import opened Capacity
  import opened GpuSelection
  import opened SelectionLaws
  import opened Placement
  import opened PlacementLaws
  import opened Elastic

  /** Request, allowlist (or the report, without one) and cap all allow this many GPUs. */
  ghost predicate Allowed(s: Situation, n: nat) {
    && n <= s.options.requestedGpus
    && n <= (if s.worker.gpus == [] then |s.reported| else |s.worker.gpus|)
    && (s.worker.maxConcurrentTasks.Some? ==> s.others + n <= s.worker.maxConcurrentTasks.value)
  }

  lemma AllowedExactly(s: Situation, n: nat)
    requires s.Valid() && n >= 1
    ensures n <= s.Limit() <==> Allowed(s, n)
  {
    ElasticLimitExactly(s.options, s.worker, |s.reported|, s.others, n);
  }

  /** The offered GPUs that the task does not hold. */
  ghost function Spare(s: Situation): set<int> {
    set g | g in s.available && g.index !in s.current :: g.index
  }

  lemma {:induction false} SpareIsExtra(s: Situation)
    requires s.Valid()
    ensures Elements(s.Extra()) == Spare(s) && |s.Extra()| == |Spare(s)|
    ensures s.Extra() == [] <==> Spare(s) == {}
  {
    AdditionalMembers(s.available, s.current);
    ElementsCount(s.Extra());
    assert s.Extra() != [] ==> s.Extra()[0] in Elements(s.Extra());
  }

  /** A task that holds more than is allowed gives up GPUs or is suspended. */
  lemma {:induction false} TooManyAreGivenUp(s: Situation, d: Resize)
    requires s.Valid() && Decision(s, d) && !Allowed(s, |s.current|)
    ensures d.Suspend? || (d.Restart? && |d.gpus| < |s.current| && forall x | x in d.gpus :: x in s.current)
    ensures d.Restart? && s.FullyReported() ==> Allowed(s, |d.gpus|) && !Allowed(s, |d.gpus| + 1)
  {
    AllowedExactly(s, |s.current|);
    ShrinkKeepsSubset(s, d);
    if d.Restart? {
      RestartGpus(s, d);
      AllowedExactly(s, |d.gpus|);
      AllowedExactly(s, |d.gpus| + 1);
    }
  }

  /** One that holds as much as is allowed, or has nothing to grow into, is left alone. */
  lemma {:induction false} EnoughIsKept(s: Situation, d: Resize)
    requires s.Valid() && Decision(s, d) && Allowed(s, |s.current|)
    requires !Allowed(s, |s.current| + 1) || Spare(s) == {}
    ensures d == Keep
  {
    AllowedExactly(s, |s.current|);
    AllowedExactly(s, |s.current| + 1);
    SpareIsExtra(s);
  }

  /** Any other, if the probe shows all it holds, is restarted on as many as are allowed and there are. */
  lemma {:induction false} GrowsToTheMost(s: Situation, d: Resize, n: nat)
    requires s.Valid() && s.FullyReported() && Decision(s, d)
    requires Allowed(s, |s.current| + 1) && Spare(s) != {} && n >= 1
    ensures d.Restart? && |d.gpus| > |s.current|
    ensures n <= |d.gpus| <==> Allowed(s, n) && n <= |s.current| + |Spare(s)|
  {
    AllowedExactly(s, |s.current| + 1);
    AllowedExactly(s, n);
    SpareIsExtra(s);
    PoolMembers(s);
    LimitBounds(s);
    GrowthIsRestart(s, d);
    RestartGpus(s, d);
  }

  lemma {:induction false} GrowthIsRestart(s: Situation, d: Resize)
    requires s.Valid() && s.FullyReported() && Decision(s, d) && s.Grows()
    ensures d.Restart?
  {
    hide Foremost, NodeFits, Lighter, Load;
    PoolMembers(s);
    var sel :| SelectedFor(s, sel) && d == Outcome(s.current, Desired(s.current, IndexesOf(sel)));
    SelectedIndexes(s, sel);
    DesiredIsSelected(s.current, IndexesOf(sel));
  }

  lemma {:induction false} DesiredInOrder(current: seq<int>, selected: seq<int>, i: nat, j: nat)
    requires Distinct(current) && Distinct(selected) && i < j < |Desired(current, selected)|
    requires Desired(current, selected)[j] in current
    ensures HeldInOrder(current, Desired(current, selected)[i], Desired(current, selected)[j])
  {
    KeepingMembers(current, selected);
    OutsideMembers(selected, current);
    var kept, more := Keeping(current, selected), Outside(selected, current);
    assert Desired(current, selected) == kept + more;
    hide Keeping, Outside, Desired;
    assert forall k | 0 <= k < |more| :: more[k] in more;
    if j < |kept| {
      KeepingInOrder(current, selected, i, j);
    }
  }

  ghost predicate HeldInOrder(current: seq<int>, a: int, b: int) {
    exists x, y :: 0 <= x < y < |current| && current[x] == a && current[y] == b
  }

  /** Kept GPUs come before new ones, and in the order in which the task had them. */
  lemma {:induction false} KeptComeFirst(s: Situation, d: Resize, i: nat, j: nat)
    requires s.Valid() && Decision(s, d) && d.Restart? && i < j < |d.gpus|
    ensures d.gpus[j] in s.current ==> HeldInOrder(s.current, d.gpus[i], d.gpus[j])
  {
    var sel :| SelectedFor(s, sel) && d == Outcome(s.current, Desired(s.current, IndexesOf(sel)));
    SelectedIndexes(s, sel);
    hide Decision, SelectedFor, BestSet, Desired, HeldInOrder;
    if d.gpus[j] in s.current {
      DesiredInOrder(s.current, IndexesOf(sel), i, j);
    }
  }

  lemma {:induction false} KeepingInOrder(current: seq<int>, selected: seq<int>, i: nat, j: nat)
    requires i < j < |Keeping(current, selected)|
    ensures var kept := Keeping(current, selected);
            exists x, y :: 0 <= x < y < |current| && current[x] == kept[i] && current[y] == kept[j]
  {
    var kept, rest := Keeping(current, selected), Keeping(current[1..], selected);
    if current[0] in selected && i == 0 {
      assert kept[j] == rest[j - 1];
      KeepingAt(current[1..], selected, j - 1);
      var y :| 0 <= y < |current[1..]| && current[1..][y] == rest[j - 1];
      assert current[0] == kept[0] && current[y + 1] == kept[j];
    } else {
      var k := if current[0] in selected then 1 else 0;
      assert kept[i] == rest[i - k] && kept[j] == rest[j - k];
      KeepingInOrder(current[1..], selected, i - k, j - k);
      var x, y :| 0 <= x < y < |current[1..]| && current[1..][x] == rest[i - k] && current[1..][y] == rest[j - k];
      assert current[x + 1] == kept[i] && current[y + 1] == kept[j];
    }
  }

  lemma {:induction false} KeepingAt(current: seq<int>, selected: seq<int>, i: nat)
    requires i < |Keeping(current, selected)|
    ensures exists x :: 0 <= x < |current| && current[x] == Keeping(current, selected)[i]
  {
    var kept, rest := Keeping(current, selected), Keeping(current[1..], selected);
    if current[0] in selected && i == 0 {
      assert current[0] == kept[0];
    } else {
      var k := if current[0] in selected then 1 else 0;
      KeepingAt(current[1..], selected, i - k);
      var x :| 0 <= x < |current[1..]| && current[1..][x] == rest[i - k];
      assert current[x + 1] == kept[i];
    }
  }

  /** Each GPU of a list is kept once. */
  lemma {:induction false} DedupeKeepsEach(s: seq<int>)
    ensures Distinct(Dedupe(s)) && Elements(Dedupe(s)) == Elements(s)
  {
    if s != [] {
      var n := |s| - 1;
      DedupeKeepsEach(s[..n]);
      assert s == s[..n] + [s[n]];
      ElementsAppend(s[..n], s[n]);
      ElementsAppend(Dedupe(s[..n]), s[n]);
      assert forall i | 0 <= i < |Dedupe(s[..n])| :: Dedupe(s[..n])[i] in Elements(s[..n]);
    }
  }

  /** Whatever the situation, the decision is determined. */
  lemma {:induction false} DecisionIsUnique(s: Situation, d: Resize, e: Resize)
    requires s.Valid() && Decision(s, d) && Decision(s, e)
    ensures d == e
  {
    if s.Shrinks() || s.Grows() {
      var a :| SelectedFor(s, a) && d == Outcome(s.current, Desired(s.current, IndexesOf(a)));
      var b :| SelectedFor(s, b) && e == Outcome(s.current, Desired(s.current, IndexesOf(b)));
      PoolMembers(s);
      hide BestSet, Decision;
      SelectionIsUnique(a, b, s.Pool(), s.Target());
    }
  }
}
