/** Who may be preempted for a task, in which order, and how many the count-based preemptors take. */
module Victims {
  import opened Models
  import opened Lifecycle
  import opened Capacity
  import opened Queries
  import opened Occupancy

  // ----- the rows of a worker, as one value -----

  lemma {:induction false} ListingExists(tasks: TaskTable, ids: set<TaskId>)
    requires KeyedById(tasks) && ids <= tasks.Keys
    ensures exists s :: SortedBy(PriorityKey, s) && Lists(s, tasks, ids)
    decreases |ids|
  {
    if ids == {} {
      var s: seq<Task> := [];
      assert SortedBy(PriorityKey, s) && Lists(s, tasks, ids);
    } else {
      var t :| t in ids;
      ListingExists(tasks, ids - {t});
      var s :| SortedBy(PriorityKey, s) && Lists(s, tasks, ids - {t});
      ListsInsert(PriorityKey, tasks[t], s, tasks, ids - {t});
      assert ids - {t} + {t} == ids;
    }
  }

  lemma {:induction false} ListingUnique(a: seq<Task>, b: seq<Task>, tasks: TaskTable, ids: set<TaskId>)
    requires SortedBy(PriorityKey, a) && Lists(a, tasks, ids)
    requires SortedBy(PriorityKey, b) && Lists(b, tasks, ids)
    ensures a == b
  {
    ListsEmpty(a, tasks, ids);
    ListsEmpty(b, tasks, ids);
    if ids != {} {
      SameFirst(a, b, tasks, ids);
      ListsTail(a, tasks, ids);
      ListsTail(b, tasks, ids);
      hide Lists, SortedBy, PriorityKey;
      ListingUnique(a[1..], b[1..], tasks, ids - {a[0].id});
      assert a == [a[0]] + a[1..] && b == [b[0]] + b[1..];
    }
  }

  lemma {:induction false} ListsEmpty(s: seq<Task>, tasks: TaskTable, ids: set<TaskId>)
    requires Lists(s, tasks, ids)
    ensures s == [] <==> ids == {}
  {
    if s != [] {
      assert s[0].id in ids;
    }
    if t :| t in ids {
      assert tasks[t] in s;
    }
  }

  lemma {:induction false} SameFirst(a: seq<Task>, b: seq<Task>, tasks: TaskTable, ids: set<TaskId>)
    requires a != [] && b != []
    requires SortedBy(PriorityKey, a) && Lists(a, tasks, ids)
    requires SortedBy(PriorityKey, b) && Lists(b, tasks, ids)
    ensures a[0] == b[0] && a[0].id in ids
  {
    FirstIsLeast(a, b, tasks, ids);
    FirstIsLeast(b, a, tasks, ids);
    assert a[0].id == b[0].id;
  }

  lemma {:induction false} FirstIsLeast(a: seq<Task>, b: seq<Task>, tasks: TaskTable, ids: set<TaskId>)
    requires a != [] && b != []
    requires SortedBy(PriorityKey, a) && Lists(a, tasks, ids) && Lists(b, tasks, ids)
    ensures AtMost(PriorityKey(a[0]), PriorityKey(b[0]))
  {
    assert b[0].id in ids;
    var i :| 0 <= i < |a| && a[i] == b[0];
  }

  lemma {:induction false} ListsTail(s: seq<Task>, tasks: TaskTable, ids: set<TaskId>)
    requires s != [] && Lists(s, tasks, ids)
    ensures Lists(s[1..], tasks, ids - {s[0].id})
    ensures SortedBy(PriorityKey, s) ==> SortedBy(PriorityKey, s[1..])
  {
    forall t | t in ids - {s[0].id}
      ensures tasks[t] in s[1..]
    {
      var i :| 0 <= i < |s| && s[i] == tasks[t];
      assert s[1..][i - 1] == s[i];
    }
  }

  /** What `running_tasks_for_worker` returns. */
  ghost function RowsOn(tasks: TaskTable, w: WorkerName): (s: seq<Task>)
    requires KeyedById(tasks)
    ensures SortedBy(PriorityKey, s) && Lists(s, tasks, OnWorker(tasks, w))
  {
    ListingExists(tasks, OnWorker(tasks, w));
    var s :| SortedBy(PriorityKey, s) && Lists(s, tasks, OnWorker(tasks, w));
    s
  }

  // ----- victim rules -----

  /** The three victim filters: NUMA-local preemption, background preemption, `allow_preempt` preemption. */
  datatype Rule = NumaRule | BackgroundRule | RegularRule

  predicate MayPreempt(rule: Rule, o: TaskOptions, t: Task) {
    && t.options.priority < o.priority
    && match rule
       case NumaRule => t.options.background || (o.allowPreempt && t.options.preemptible)
       case BackgroundRule => t.options.background
       case RegularRule => !t.options.background && t.options.preemptible
  }

  function VictimsIn(rule: Rule, o: TaskOptions, s: seq<Task>): seq<Task> {
    if s == [] then []
    else (if MayPreempt(rule, o, s[0]) then [s[0]] else []) + VictimsIn(rule, o, s[1..])
  }

  function BackgroundFirst(t: Task): SortKey {
    SortKey(if t.options.background then 0 else 1, t.options.priority, StartKey(t))
  }

  function LowestPriorityFirst(t: Task): SortKey {
    SortKey(t.options.priority, StartKey(t), 0)
  }

  function VictimKey(rule: Rule): Task -> SortKey {
    if rule.NumaRule? then BackgroundFirst else LowestPriorityFirst
  }

  lemma {:induction false} VictimsInMembers(rule: Rule, o: TaskOptions, s: seq<Task>)
    ensures forall t :: t in VictimsIn(rule, o, s) <==> t in s && MayPreempt(rule, o, t)
    ensures DistinctIds(s) ==> DistinctIds(VictimsIn(rule, o, s))
  {
    if s != [] {
      VictimsInMembers(rule, o, s[1..]);
      assert s == [s[0]] + s[1..];
      forall t | t in VictimsIn(rule, o, s[1..]) && DistinctIds(s)
        ensures t.id != s[0].id
      {
        var i :| 0 <= i < |s[1..]| && s[1..][i] == t;
        assert s[i + 1] == t;
      }
    }
  }

  /** The candidates of one worker in the order the preemptor considers them. */
  ghost function Candidates(rule: Rule, o: TaskOptions, tasks: TaskTable, w: WorkerName): seq<Task>
    requires KeyedById(tasks)
  {
    Sort(VictimKey(rule), VictimsIn(rule, o, RowsOn(tasks, w)))
  }

  /** Every candidate is a running row of the worker that the rule allows, and every such row is a candidate. */
  lemma {:induction false} CandidatesMembers(rule: Rule, o: TaskOptions, tasks: TaskTable, w: WorkerName)
    requires KeyedById(tasks)
    ensures DistinctIds(Candidates(rule, o, tasks, w)) && SortedBy(VictimKey(rule), Candidates(rule, o, tasks, w))
    ensures forall t | t in Candidates(rule, o, tasks, w) ::
              t.id in OnWorker(tasks, w) && tasks[t.id] == t && MayPreempt(rule, o, t)
    ensures forall t | t in OnWorker(tasks, w) && MayPreempt(rule, o, tasks[t]) ::
              tasks[t] in Candidates(rule, o, tasks, w)
  {
    var rows := RowsOn(tasks, w);
    var victims := VictimsIn(rule, o, rows);
    VictimsInMembers(rule, o, rows);
    SortSorts(VictimKey(rule), victims);
    forall t
      ensures t in Candidates(rule, o, tasks, w) <==> t in victims
    {
      assert t in Members(Sort(VictimKey(rule), victims)) <==> t in Members(victims);
    }
  }

  /** `running_tasks_for_worker` filtered and sorted. */
  method CandidatesOn(rule: Rule, o: TaskOptions, tasks: TaskTable, w: WorkerName)
    returns (victims: seq<Task>, used: nat)
    requires KeyedById(tasks)
    ensures victims == Candidates(rule, o, tasks, w)
    ensures used == |Held(tasks, w)|
  {
    var rows := RunningTasksForWorker(tasks, w);
    ListingUnique(rows, RowsOn(tasks, w), tasks, OnWorker(tasks, w));
    victims := Sort(VictimKey(rule), VictimsIn(rule, o, rows));
    used := SlotSum(rows);
    SlotSumIsHeld(rows, tasks, w);
  }

  // ----- how many victims -----

  /** Both deficits are met once these victims are released. */
  predicate Covers(victims: seq<Task>, gpus: nat, slots: nat, requested: int) {
    gpus + SlotSum(victims) >= requested && slots + SlotSum(victims) >= requested
  }

  /** The shortest non-empty prefix that covers both deficits, or all candidates when none does. */
  ghost predicate ShortestPrefix(victims: seq<Task>, candidates: seq<Task>, gpus: nat, slots: nat, requested: int) {
    && victims <= candidates
    && (victims == [] <==> candidates == [])
    && (forall k | 1 <= k < |victims| :: !Covers(candidates[..k], gpus, slots, requested))
    && (victims != candidates ==> Covers(victims, gpus, slots, requested))
  }

  /** There is one such prefix. */
  lemma {:induction false} ShortestPrefixIsUnique(a: seq<Task>, b: seq<Task>, candidates: seq<Task>, gpus: nat,
                                                  slots: nat, requested: int)
    requires ShortestPrefix(a, candidates, gpus, slots, requested)
    requires ShortestPrefix(b, candidates, gpus, slots, requested)
    ensures a == b
  {
    assert a == candidates[..|a|] && b == candidates[..|b|];
  }

  lemma {:induction false} SlotSumPrefix(s: seq<Task>, k: nat)
    requires k <= |s|
    ensures SlotSum(s[..k]) <= SlotSum(s)
  {
    if k > 0 {
      assert s[..k][1..] == s[1..][..k - 1];
      SlotSumPrefix(s[1..], k - 1);
    }
  }

  /** The prefix covers both deficits exactly when all candidates together do. */
  lemma {:induction false} CoversExactly(victims: seq<Task>, candidates: seq<Task>, gpus: nat, slots: nat,
                                         requested: int)
    requires ShortestPrefix(victims, candidates, gpus, slots, requested)
    ensures Covers(victims, gpus, slots, requested) <==> Covers(candidates, gpus, slots, requested)
  {
    SlotSumPrefix(candidates, |victims|);
    assert candidates[..|victims|] == victims;
  }

  /** The accumulation loop of `_preempt_for_task` and `_preempt_background_for_task`. */
  method TakeVictims(candidates: seq<Task>, gpus: nat, slots: nat, requested: int)
    returns (victims: seq<Task>, covered: bool)
    ensures ShortestPrefix(victims, candidates, gpus, slots, requested)
    ensures covered <==> Covers(victims, gpus, slots, requested)
  {
    victims := [];
    var releasable, releasableSlots := gpus, slots;
    for i := 0 to |candidates|
      invariant victims == candidates[..i]
      invariant releasable == gpus + SlotSum(victims) && releasableSlots == slots + SlotSum(victims)
      invariant forall k | 1 <= k <= i :: !Covers(candidates[..k], gpus, slots, requested)
    {
      SlotSumAppend(candidates[..i], candidates[i]);
      victims := victims + [candidates[i]];
      assert victims == candidates[..i + 1];
      releasable := releasable + |candidates[i].gpus|;
      releasableSlots := releasableSlots + |candidates[i].gpus|;
      if releasable >= requested && releasableSlots >= requested {
        break;
      }
    }
    covered := releasable >= requested && releasableSlots >= requested;
  }

  // ----- what releasing the victims leaves -----

  ghost function IdsOf(victims: seq<Task>): set<TaskId> {
    set t | t in victims :: t.id
  }

  /** The table with every one of these tasks back in the queue. */
  ghost function Released(tasks: TaskTable, ids: set<TaskId>): TaskTable {
    map t | t in tasks :: if t in ids then Requeued(tasks[t]) else tasks[t]
  }

  lemma {:induction false} ReleasedTwice(tasks: TaskTable, a: set<TaskId>, b: set<TaskId>)
    ensures Released(tasks, {}) == tasks
    ensures Released(Released(tasks, a), b) == Released(tasks, a + b)
  {
    assert Released(Released(tasks, a), b).Keys == Released(tasks, a + b).Keys;
  }

  lemma {:induction false} IdsOfNext(victims: seq<Task>, i: nat)
    requires i < |victims| && DistinctIds(victims)
    ensures IdsOf(victims[..i + 1]) == IdsOf(victims[..i]) + {victims[i].id}
    ensures victims[i].id !in IdsOf(victims[..i])
  {
    assert victims[..i + 1] == victims[..i] + [victims[i]];
  }

  lemma {:induction false} VictimSlots(tasks: TaskTable, w: WorkerName, victims: seq<Task>, p: (TaskId, nat))
    requires forall t | t in victims :: t.id in OnWorker(tasks, w) && tasks[t.id] == t
    ensures p in HeldBy(victims) <==> p in Held(tasks, w) && p.0 in IdsOf(victims)
  {
    HeldByHolders(victims, p);
    if HolderIn(victims, p) {
      var i :| 0 <= i < |victims| && victims[i].id == p.0 && p.1 < |victims[i].gpus|;
      assert victims[i] in victims;
    }
    if p in Held(tasks, w) && p.0 in IdsOf(victims) {
      var t :| t in victims && t.id == p.0;
      var i :| 0 <= i < |victims| && victims[i] == t;
    }
  }

  lemma {:induction false} HeldAfterRelease(tasks: TaskTable, w: WorkerName, ids: set<TaskId>,
                                            slots: set<(TaskId, nat)>)
    requires forall p :: p in slots <==> p in Held(tasks, w) && p.0 in ids
    ensures Held(Released(tasks, ids), w) == Held(tasks, w) - slots
  {
    assert forall t :: t in OnWorker(Released(tasks, ids), w) <==> t in OnWorker(tasks, w) && t !in ids;
  }

  lemma {:induction false} ReleasedSlots(tasks: TaskTable, w: WorkerName, victims: seq<Task>)
    requires KeyedById(tasks) && DistinctIds(victims)
    requires forall t | t in victims :: t.id in OnWorker(tasks, w) && tasks[t.id] == t
    ensures |Held(Released(tasks, IdsOf(victims)), w)| == |Held(tasks, w)| - SlotSum(victims)
  {
    SlotSumCounts(victims);
    forall p
      ensures p in HeldBy(victims) <==> p in Held(tasks, w) && p.0 in IdsOf(victims)
    {
      VictimSlots(tasks, w, victims, p);
    }
    HeldAfterRelease(tasks, w, IdsOf(victims), HeldBy(victims));
    SubsetSize(HeldBy(victims), Held(tasks, w));
  }

  function SlotsLeft(w: WorkerConfig, free: nat, used: nat): nat {
    if w.maxConcurrentTasks.Some? then
      if w.maxConcurrentTasks.value >= used then w.maxConcurrentTasks.value - used else 0
    else free
  }

  /**
   * While the worker is within its cap, the preemptor's running slot count is the true number of free
   * slots: once all chosen victims are released, at least the requested number of slots is free.
   */
  lemma {:induction false} ReleasingVictimsFreesSlots(rule: Rule, o: TaskOptions, tasks: TaskTable, w: WorkerConfig,
                                                      free: nat, victims: seq<Task>)
    requires KeyedById(tasks) && WithinLimits(w, tasks)
    requires ShortestPrefix(victims, Candidates(rule, o, tasks, w.name), free,
             SlotsLeft(w, free, |Held(tasks, w.name)|), o.requestedGpus)
    requires Covers(victims, free, SlotsLeft(w, free, |Held(tasks, w.name)|), o.requestedGpus)
    ensures w.maxConcurrentTasks.Some? ==>
              && w.maxConcurrentTasks.value - |Held(Released(tasks, IdsOf(victims)), w.name)| ==
                 SlotsLeft(w, free, |Held(tasks, w.name)|) + SlotSum(victims)
              && w.maxConcurrentTasks.value - |Held(Released(tasks, IdsOf(victims)), w.name)| >= o.requestedGpus
  {
    CandidatesMembers(rule, o, tasks, w.name);
    var all := Candidates(rule, o, tasks, w.name);
    assert forall t | t in victims :: t in all;
    assert forall i | 0 <= i < |victims| :: victims[i] == all[i];
    ReleasedSlots(tasks, w.name, victims);
  }
}
