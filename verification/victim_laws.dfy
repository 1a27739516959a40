/** In which order running tasks are given up, said of their kind, priority and start time. */
module VictimLaws {
  import opened Models
  import opened Lifecycle
  import opened Capacity
  import opened Queries
  import opened Victims

  /** Started no later; a row without a start time counts as the earliest. */
  ghost predicate NoLaterStart(a: Task, b: Task) {
    a.startedAt.None? || (b.startedAt.Some? && a.startedAt.value <= b.startedAt.value)
  }

  lemma StartKeyMeans(a: Task, b: Task)
    ensures StartKey(a) <= StartKey(b) <==> NoLaterStart(a, b)
  {
  }

  /** Lower priority first; at equal priority the one that started earlier. */
  ghost predicate GivenUpFirst(a: Task, b: Task) {
    && a.options.priority <= b.options.priority
    && (a.options.priority == b.options.priority ==> NoLaterStart(a, b))
  }

  /** Background tasks before the others, and then the same. */
  ghost predicate GivenUpFirstForNode(a: Task, b: Task) {
    && (b.options.background ==> a.options.background)
    && (a.options.background == b.options.background ==> GivenUpFirst(a, b))
  }

  lemma KeyMeansOrder(rule: Rule, a: Task, b: Task)
    requires AtMost(VictimKey(rule)(a), VictimKey(rule)(b))
    ensures if rule.NumaRule? then GivenUpFirstForNode(a, b) else GivenUpFirst(a, b)
  {
  }

  /** The candidates come in this order. */
  lemma {:induction false} CandidatesInOrder(rule: Rule, o: TaskOptions, tasks: TaskTable, w: WorkerName, i: nat,
                                             j: nat)
    requires KeyedById(tasks)
    requires i < j < |Candidates(rule, o, tasks, w)|
    ensures var c := Candidates(rule, o, tasks, w);
            if rule.NumaRule? then GivenUpFirstForNode(c[i], c[j]) else GivenUpFirst(c[i], c[j])
  {
    CandidatesMembers(rule, o, tasks, w);
    var c := Candidates(rule, o, tasks, w);
    hide Candidates;
    KeyMeansOrder(rule, c[i], c[j]);
  }

  /** A task that the rule allows to be given up on this worker. */
  ghost predicate Permitted(rule: Rule, o: TaskOptions, tasks: TaskTable, w: WorkerName, id: TaskId) {
    && id in tasks && tasks[id].status == Running && tasks[id].worker == Some(w)
    && tasks[id].options.priority < o.priority
    && (rule.BackgroundRule? ==> tasks[id].options.background)
    && (rule.RegularRule? ==> !tasks[id].options.background && tasks[id].options.preemptible)
    && (rule.NumaRule? ==> tasks[id].options.background || (o.allowPreempt && tasks[id].options.preemptible))
  }

  lemma {:induction false} PermittedExactly(rule: Rule, o: TaskOptions, tasks: TaskTable, w: WorkerName, t: Task)
    requires KeyedById(tasks)
    ensures t in Candidates(rule, o, tasks, w) <==> Permitted(rule, o, tasks, w, t.id) && tasks[t.id] == t
  {
    CandidatesMembers(rule, o, tasks, w);
    hide Candidates;
  }

  /**
   * Of the permitted tasks of a worker, the count-based preemptors give up those of the lowest priority, and
   * at equal priority those that started earliest: no spared one comes before a chosen one.
   */
  lemma {:induction false} SparedComeLater(rule: Rule, o: TaskOptions, tasks: TaskTable, w: WorkerName,
                                           victims: seq<Task>, gpus: nat, slots: nat, chosen: Task, spared: TaskId)
    requires KeyedById(tasks) && !rule.NumaRule?
    requires ShortestPrefix(victims, Candidates(rule, o, tasks, w), gpus, slots, o.requestedGpus)
    requires chosen in victims
    requires Permitted(rule, o, tasks, w, spared) && tasks[spared] !in victims
    ensures GivenUpFirst(chosen, tasks[spared])
  {
    var c := Candidates(rule, o, tasks, w);
    PermittedExactly(rule, o, tasks, w, tasks[spared]);
    var i :| 0 <= i < |victims| && victims[i] == chosen;
    var j :| 0 <= j < |c| && c[j] == tasks[spared];
    assert c[i] == chosen && j >= |victims|;
    CandidatesInOrder(rule, o, tasks, w, i, j);
  }

  // ----- how many -----

  /** What releasing tasks returns to the worker is the number of GPUs each of them was given, added up. */
  lemma SlotsOfOne(t: Task)
    ensures SlotSum([t]) == |t.gpus|
  {
    assert [t][1..] == [];
  }

  lemma {:induction false} SlotsAdd(a: seq<Task>, b: seq<Task>)
    ensures SlotSum(a + b) == SlotSum(a) + SlotSum(b)
  {
    if a == [] {
      assert a + b == b;
    } else {
      assert (a + b)[1..] == a[1..] + b;
      SlotsAdd(a[1..], b);
    }
  }

  /** Without the last victim, GPUs or slots would fall short. */
  lemma {:induction false} LastVictimIsNeeded(victims: seq<Task>, candidates: seq<Task>, gpus: nat, slots: nat,
                                              requested: int)
    requires ShortestPrefix(victims, candidates, gpus, slots, requested) && |victims| >= 2
    ensures var rest := victims[..|victims| - 1];
            gpus + SlotSum(rest) < requested || slots + SlotSum(rest) < requested
  {
    assert candidates[..|victims| - 1] == victims[..|victims| - 1];
  }
}
