/** The SELECT statements of gpu_watcher/store.py over the task table, and sorting tasks by a key. */
module Queries {
  import opened Models
  import opened Lifecycle
  import opened Capacity

  // ----- ordering -----

  datatype SortKey = SortKey(first: int, second: int, third: int)

  predicate AtMost(a: SortKey, b: SortKey) {
    || a.first < b.first
    || (a.first == b.first && (a.second < b.second || (a.second == b.second && a.third <= b.third)))
  }

  function StartKey(t: Task): int {
    if t.startedAt.Some? then t.startedAt.value else -1
  }

  /** `ORDER BY priority DESC, created_at ASC`; the row number decides between equal times. */
  function QueueKey(t: Task): SortKey {
    SortKey(-t.options.priority, t.createdAt, t.id)
  }

  /** `ORDER BY started_at ASC`. */
  function StartedKey(t: Task): SortKey {
    SortKey(StartKey(t), t.id, 0)
  }

  /** `ORDER BY priority ASC, started_at ASC`. */
  function PriorityKey(t: Task): SortKey {
    SortKey(t.options.priority, StartKey(t), t.id)
  }

  ghost predicate SortedBy(key: Task -> SortKey, s: seq<Task>) {
    forall i, j | 0 <= i < j < |s| :: AtMost(key(s[i]), key(s[j]))
  }

  function Insert(key: Task -> SortKey, x: Task, s: seq<Task>): seq<Task> {
    if s == [] || AtMost(key(x), key(s[0])) then [x] + s else [s[0]] + Insert(key, x, s[1..])
  }

  /** Stable, as Python's `sort` is. */
  function Sort(key: Task -> SortKey, s: seq<Task>): seq<Task> {
    if s == [] then [] else Insert(key, s[0], Sort(key, s[1..]))
  }

  ghost function Members(s: seq<Task>): set<Task> {
    set t | t in s
  }

  lemma {:induction false} MembersCons(x: Task, s: seq<Task>)
    ensures Members([x] + s) == {x} + Members(s)
  {
  }

  ghost predicate DistinctIds(s: seq<Task>) {
    forall i, j | 0 <= i < j < |s| :: s[i].id != s[j].id
  }

  lemma {:induction false} InsertSorts(key: Task -> SortKey, x: Task, s: seq<Task>)
    requires SortedBy(key, s)
    ensures SortedBy(key, Insert(key, x, s))
    ensures |Insert(key, x, s)| == |s| + 1
    ensures Members(Insert(key, x, s)) == Members(s) + {x}
  {
    if s != [] && !AtMost(key(x), key(s[0])) {
      InsertSorts(key, x, s[1..]);
      var rest := Insert(key, x, s[1..]);
      forall j | 0 <= j < |rest|
        ensures AtMost(key(s[0]), key(rest[j]))
      {
        assert rest[j] in Members(rest);
      }
      assert s == [s[0]] + s[1..];
      MembersCons(s[0], s[1..]);
      MembersCons(s[0], rest);
    } else {
      MembersCons(x, s);
    }
  }

  lemma {:induction false} InsertDistinct(key: Task -> SortKey, x: Task, s: seq<Task>)
    requires SortedBy(key, s)
    requires DistinctIds(s) && forall t | t in s :: t.id != x.id
    ensures DistinctIds(Insert(key, x, s))
  {
    if s != [] && !AtMost(key(x), key(s[0])) {
      InsertDistinct(key, x, s[1..]);
      InsertSorts(key, x, s[1..]);
      var rest := Insert(key, x, s[1..]);
      forall j | 0 <= j < |rest|
        ensures rest[j].id != s[0].id
      {
        assert rest[j] in Members(rest);
      }
    }
  }

  lemma {:induction false} SortSorts(key: Task -> SortKey, s: seq<Task>)
    ensures SortedBy(key, Sort(key, s))
    ensures |Sort(key, s)| == |s|
    ensures Members(Sort(key, s)) == Members(s)
    ensures DistinctIds(s) ==> DistinctIds(Sort(key, s))
  {
    if s != [] {
      SortSorts(key, s[1..]);
      InsertSorts(key, s[0], Sort(key, s[1..]));
      assert s == [s[0]] + s[1..];
      MembersCons(s[0], s[1..]);
      if DistinctIds(s) {
        forall t | t in Sort(key, s[1..])
          ensures t.id != s[0].id
        {
          assert t in Members(Sort(key, s[1..]));
        }
        InsertDistinct(key, s[0], Sort(key, s[1..]));
      }
    }
  }

  // ----- listings -----

  /** `s` holds exactly the rows of `ids`, each once. */
  ghost predicate Lists(s: seq<Task>, tasks: TaskTable, ids: set<TaskId>) {
    && DistinctIds(s)
    && (forall i | 0 <= i < |s| :: s[i].id in ids && s[i].id in tasks && s[i] == tasks[s[i].id])
    && (forall t | t in ids :: t in tasks && tasks[t].id == t && tasks[t] in s)
  }

  ghost function WithStatus(tasks: TaskTable, status: Status): set<TaskId> {
    set t | t in tasks && tasks[t].status == status
  }

  ghost predicate KeyedById(tasks: TaskTable) {
    forall t | t in tasks :: tasks[t].id == t
  }

  lemma {:induction false} ListsInsert(key: Task -> SortKey, x: Task, s: seq<Task>, tasks: TaskTable, ids: set<TaskId>)
    requires SortedBy(key, s) && Lists(s, tasks, ids)
    requires x.id in tasks && tasks[x.id] == x && x.id !in ids
    ensures SortedBy(key, Insert(key, x, s)) && Lists(Insert(key, x, s), tasks, ids + {x.id})
  {
    InsertSorts(key, x, s);
    InsertDistinct(key, x, s);
    var r := Insert(key, x, s);
    forall i | 0 <= i < |r|
      ensures r[i] == x || r[i] in s
    {
      assert r[i] in Members(r);
    }
    forall t | t in ids + {x.id}
      ensures t in tasks && tasks[t].id == t && tasks[t] in r
    {
      assert tasks[t] in Members(r);
    }
  }

  ghost function Matching(tasks: TaskTable, wanted: Task -> bool): set<TaskId> {
    set t | t in tasks && wanted(tasks[t])
  }

  /** `SELECT * FROM tasks WHERE wanted ORDER BY key`. */
  method Select(tasks: TaskTable, wanted: Task -> bool, key: Task -> SortKey) returns (r: seq<Task>)
    requires KeyedById(tasks)
    ensures SortedBy(key, r) && Lists(r, tasks, Matching(tasks, wanted))
  {
    r := [];
    var todo := tasks.Keys;
    ghost var found: set<TaskId> := {};
    ghost var all := Matching(tasks, wanted);
    while todo != {}
      invariant todo <= tasks.Keys
      invariant found !! todo && found <= all && all <= found + todo
      invariant SortedBy(key, r) && Lists(r, tasks, found)
      decreases |todo|
    {
      var id :| id in todo;
      todo := todo - {id};
      if wanted(tasks[id]) {
        ListsInsert(key, tasks[id], r, tasks, found);
        r := Insert(key, tasks[id], r);
        found := found + {id};
      }
    }
    assert found == all;
  }

  method SelectByStatus(tasks: TaskTable, status: Status, key: Task -> SortKey) returns (r: seq<Task>)
    requires KeyedById(tasks)
    ensures SortedBy(key, r) && Lists(r, tasks, WithStatus(tasks, status))
  {
    r := Select(tasks, (t: Task) => t.status == status, key);
    assert Matching(tasks, (t: Task) => t.status == status) == WithStatus(tasks, status);
  }

  const QUEUE_LIMIT: nat := 100

  /** The window `queued_tasks` returns: the first rows of the queue, at most `QUEUE_LIMIT`. */
  ghost predicate QueueWindow(tasks: TaskTable, r: seq<Task>) {
    && SortedBy(QueueKey, r) && DistinctIds(r)
    && |r| <= QUEUE_LIMIT
    && (forall i | 0 <= i < |r| :: r[i].id in tasks && r[i] == tasks[r[i].id] && r[i].status == Queued)
    && (forall t | t in tasks && tasks[t].status == Queued && tasks[t] !in r ::
          |r| == QUEUE_LIMIT && forall i | 0 <= i < |r| :: AtMost(QueueKey(r[i]), QueueKey(tasks[t])))
  }

  method QueuedTasks(tasks: TaskTable) returns (r: seq<Task>)
    requires KeyedById(tasks)
    ensures QueueWindow(tasks, r)
  {
    var all := SelectByStatus(tasks, Queued, QueueKey);
    r := if |all| <= QUEUE_LIMIT then all else all[..QUEUE_LIMIT];
    forall t | t in tasks && tasks[t].status == Queued && tasks[t] !in r
      ensures |r| == QUEUE_LIMIT && forall i | 0 <= i < |r| :: AtMost(QueueKey(r[i]), QueueKey(tasks[t]))
    {
      assert t in WithStatus(tasks, Queued);
      var k :| 0 <= k < |all| && all[k] == tasks[t];
      assert k >= |r|;
    }
  }

  method RunningTasks(tasks: TaskTable) returns (r: seq<Task>)
    requires KeyedById(tasks)
    ensures SortedBy(StartedKey, r) && Lists(r, tasks, WithStatus(tasks, Running))
  {
    r := SelectByStatus(tasks, Running, StartedKey);
  }

  method RunningTasksForWorker(tasks: TaskTable, w: WorkerName) returns (r: seq<Task>)
    requires KeyedById(tasks)
    ensures SortedBy(PriorityKey, r) && Lists(r, tasks, OnWorker(tasks, w))
  {
    var all := SelectByStatus(tasks, Running, PriorityKey);
    r := [];
    for i := 0 to |all|
      invariant SortedBy(PriorityKey, r) && DistinctIds(r)
      invariant forall k | 0 <= k < |r| :: r[k] in all[..i] && RunsOn(r[k], w)
      invariant forall k | 0 <= k < i && RunsOn(all[k], w) :: all[k] in r
    {
      assert all[..i + 1] == all[..i] + [all[i]];
      if all[i].worker == Some(w) {
        r := r + [all[i]];
      }
    }
  }

  predicate IsScheduled(t: Task) {
    t.options.startCron.Some? || t.options.stopCron.Some?
  }

  function CreatedKey(t: Task): SortKey {
    SortKey(t.createdAt, t.id, 0)
  }

  method ScheduledTasks(tasks: TaskTable) returns (r: seq<Task>)
    requires KeyedById(tasks)
    ensures SortedBy(CreatedKey, r) && Lists(r, tasks, Matching(tasks, IsScheduled))
  {
    r := Select(tasks, IsScheduled, CreatedKey);
  }

  // ----- walking a listing while the table changes -----

  /** The rows from the `i`-th on are still as they were listed. */
  ghost predicate StillListed(tasks: TaskTable, rows: seq<Task>, i: nat) {
    && KeyedById(tasks) && DistinctIds(rows)
    && forall k | i <= k < |rows| :: rows[k].id in tasks && tasks[rows[k].id] == rows[k]
  }

  lemma {:induction false} ListingBegins(tasks: TaskTable, rows: seq<Task>, ids: set<TaskId>)
    requires KeyedById(tasks) && Lists(rows, tasks, ids)
    ensures StillListed(tasks, rows, 0)
  {
  }

  lemma {:induction false} ListedNext(tasks: TaskTable, rows: seq<Task>, i: nat)
    requires StillListed(tasks, rows, i) && i < |rows|
    ensures rows[i].id in tasks && tasks[rows[i].id] == rows[i]
    ensures KeyedById(tasks) && StillListed(tasks, rows, i + 1)
  {
  }

  /** Replacing the row just visited leaves the ones to come. */
  lemma {:induction false} ListedAfter(before: TaskTable, after: TaskTable, rows: seq<Task>, i: nat)
    requires StillListed(before, rows, i) && i < |rows|
    requires after == before ||
             (rows[i].id in after && after == before[rows[i].id := after[rows[i].id]]
               && after[rows[i].id].id == rows[i].id)
    ensures StillListed(after, rows, i + 1)
  {
  }

  // ----- slots -----

  function SlotSum(s: seq<Task>): nat {
    if s == [] then 0 else |s[0].gpus| + SlotSum(s[1..])
  }

  ghost function HeldBy(s: seq<Task>): set<(TaskId, nat)> {
    if s == [] then {} else Slots(s[0].id, |s[0].gpus|) + HeldBy(s[1..])
  }

  ghost predicate HolderIn(s: seq<Task>, p: (TaskId, nat)) {
    exists i :: 0 <= i < |s| && s[i].id == p.0 && p.1 < |s[i].gpus|
  }

  lemma {:induction false} HeldByHolders(s: seq<Task>, p: (TaskId, nat))
    ensures p in HeldBy(s) <==> HolderIn(s, p)
  {
    if s != [] {
      HeldByHolders(s[1..], p);
      if HolderIn(s[1..], p) {
        var i :| 0 <= i < |s[1..]| && s[1..][i].id == p.0 && p.1 < |s[1..][i].gpus|;
        assert s[i + 1] == s[1..][i];
      }
      if HolderIn(s, p) {
        var i :| 0 <= i < |s| && s[i].id == p.0 && p.1 < |s[i].gpus|;
        assert i > 0 ==> s[1..][i - 1] == s[i];
      }
    }
  }

  lemma {:induction false} SlotSumCounts(s: seq<Task>)
    requires DistinctIds(s)
    ensures |HeldBy(s)| == SlotSum(s)
  {
    if s != [] {
      SlotSumCounts(s[1..]);
      SlotsSize(s[0].id, |s[0].gpus|);
      forall p | p in HeldBy(s[1..])
        ensures p.0 != s[0].id
      {
        HeldByHolders(s[1..], p);
      }
    }
  }

  /** Adding up assigned GPUs over a worker's running rows counts the slots held there. */
  lemma {:induction false} SlotSumIsHeld(s: seq<Task>, tasks: TaskTable, w: WorkerName)
    requires Lists(s, tasks, OnWorker(tasks, w))
    ensures SlotSum(s) == |Held(tasks, w)|
  {
    SlotSumCounts(s);
    assert HeldBy(s) == Held(tasks, w) by {
      forall p
        ensures p in HeldBy(s) <==> p in Held(tasks, w)
      {
        HeldByHolders(s, p);
      }
    }
  }
}
