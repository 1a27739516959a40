/** One dispatch pass as a whole: the order of its attempts, and what holds between its phases. */
module DispatchPass {
  import opened Models
  import opened Lifecycle
  import opened Capacity
  import opened Occupancy
  import opened Queries
  import opened Protocol
  import opened PassOrder
  import opened DispatchEffects
  import opened Placement
  import opened Victims

  // ----- picking the next regular task -----

  ghost predicate Waiting(tasks: TaskTable, attempted: set<TaskId>, t: TaskId) {
    t in tasks && tasks[t].status == Queued && !tasks[t].options.background && t !in attempted
  }

  /** The queued rows that come before this one. */
  ghost function Ahead(tasks: TaskTable, t: TaskId): set<TaskId>
    requires t in tasks
  {
    set u | u in tasks && tasks[u].status == Queued && u != t && AtMost(QueueKey(tasks[u]), QueueKey(tasks[t]))
  }

  /** Few enough rows come before it for the queue window to hold it. */
  ghost predicate Within(tasks: TaskTable, t: TaskId) {
    t in tasks && |Ahead(tasks, t)| < QUEUE_LIMIT
  }

  /**
   * First by priority and age among every regular queued task not attempted yet, however long the queue is,
   * and within the queue window.
   */
  ghost predicate NextInQueue(tasks: TaskTable, attempted: set<TaskId>, id: TaskId) {
    && Waiting(tasks, attempted, id)
    && Within(tasks, id)
    && forall t | Waiting(tasks, attempted, t) :: AtMost(QueueKey(tasks[id]), QueueKey(tasks[t]))
  }

  /** The window the queue query returns holds no regular task that was not attempted. */
  ghost predicate WindowExhausted(tasks: TaskTable, attempted: set<TaskId>) {
    exists r: seq<Task> :: QueueWindow(tasks, r) && forall i | 0 <= i < |r| :: !Waiting(tasks, attempted, r[i].id)
  }

  /** The window holds a queued row if and only if fewer rows than its limit come before that row. */
  lemma {:induction false} WindowExactly(tasks: TaskTable, r: seq<Task>, t: TaskId)
    requires KeyedById(tasks) && QueueWindow(tasks, r)
    requires t in tasks && tasks[t].status == Queued
    ensures tasks[t] in r <==> Within(tasks, t)
  {
    if tasks[t] in r {
      var k :| 0 <= k < |r| && r[k] == tasks[t];
      ListedAhead(tasks, r, k);
      PrefixIds(tasks, r, k);
      SubsetSize(Ahead(tasks, t), IdsOf(r[..k]));
    } else {
      PrefixIds(tasks, r, |r|);
      assert r[..|r|] == r;
      forall u | u in IdsOf(r)
        ensures u in Ahead(tasks, t)
      {
        var i :| 0 <= i < |r| && r[i].id == u;
      }
      SubsetSize(IdsOf(r), Ahead(tasks, t));
    }
  }

  /** The rows before a listed one are listed before it. */
  lemma {:induction false} ListedAhead(tasks: TaskTable, r: seq<Task>, k: nat)
    requires KeyedById(tasks) && QueueWindow(tasks, r) && k < |r|
    ensures r[k].id in tasks && Ahead(tasks, r[k].id) <= IdsOf(r[..k])
  {
    forall u | u in Ahead(tasks, r[k].id)
      ensures u in IdsOf(r[..k])
    {
      assert !AtMost(QueueKey(r[k]), QueueKey(tasks[u]));
      var i :| 0 <= i < |r| && r[i] == tasks[u];
      assert r[..k][i] == tasks[u];
    }
  }

  lemma {:induction false} PrefixIds(tasks: TaskTable, r: seq<Task>, k: nat)
    requires KeyedById(tasks) && QueueWindow(tasks, r) && k <= |r|
    ensures |IdsOf(r[..k])| == k
  {
    var s := r[..k];
    assert forall i | 0 <= i < |s| :: s[i] == r[i] && s[i] in s;
    ListSize(s, tasks, IdsOf(s));
  }

  /** The waiting regular tasks that were attempted are exactly those within the window. */
  ghost predicate ReachedExactly(tasks: TaskTable, attempted: set<TaskId>) {
    forall t | t in tasks && tasks[t].status == Queued && !tasks[t].options.background ::
      t in attempted <==> Within(tasks, t)
  }

  /** So if the queue fits into the window, every waiting regular task was attempted. */
  lemma {:induction false} ShortQueueIsExhausted(tasks: TaskTable, attempted: set<TaskId>, t: TaskId)
    requires ReachedExactly(tasks, attempted)
    requires |WithStatus(tasks, Queued)| <= QUEUE_LIMIT
    ensures !Waiting(tasks, attempted, t)
  {
    if Waiting(tasks, attempted, t) {
      assert t in WithStatus(tasks, Queued);
      SubsetSize(Ahead(tasks, t), WithStatus(tasks, Queued) - {t});
    }
  }

  method NextRegular(tasks: TaskTable, attempted: set<TaskId>) returns (next: Option<TaskId>)
    requires KeyedById(tasks)
    ensures next.Some? ==> NextInQueue(tasks, attempted, next.value)
    ensures next.None? ==> WindowExhausted(tasks, attempted)
  {
    var queued := QueuedTasks(tasks);
    for i := 0 to |queued|
      invariant forall k | 0 <= k < i :: !Waiting(tasks, attempted, queued[k].id)
    {
      if !queued[i].options.background && queued[i].id !in attempted {
        WindowExactly(tasks, queued, queued[i].id);
        forall t | Waiting(tasks, attempted, t)
          ensures AtMost(QueueKey(queued[i]), QueueKey(tasks[t]))
        {
          if tasks[t] in queued {
            var k :| 0 <= k < |queued| && queued[k] == tasks[t];
            assert k >= i;
          }
        }
        return Some(queued[i].id);
      }
    }
    return None;
  }

  /** A regular queued task of higher priority that may run on the worker. */
  predicate Blocks(t: Task, w: WorkerConfig, background: Task) {
    && t.status == Queued && !t.options.background
    && t.options.priority > background.options.priority
    && Targets(t.options, w)
  }

  /** No row of the queue window blocks. */
  ghost predicate NoneBlocks(tasks: TaskTable, w: WorkerConfig, background: Task) {
    exists r: seq<Task> :: QueueWindow(tasks, r) && forall t | t in r :: !Blocks(t, w, background)
  }

  /** The queue window holds the row, however it is drawn. */
  ghost predicate InWindow(tasks: TaskTable, t: Task) {
    forall r: seq<Task> | QueueWindow(tasks, r) :: t in r
  }

  /** Whatever blocks a background task of the window sorts before it, so it is in the window too. */
  lemma {:induction false} BlockersAreInWindow(tasks: TaskTable, r: seq<Task>, w: WorkerConfig, background: Task,
                                               t: TaskId)
    requires QueueWindow(tasks, r) && background in r
    requires t in tasks && Blocks(tasks[t], w, background)
    ensures tasks[t] in r
  {
    var k :| 0 <= k < |r| && r[k] == background;
    assert !AtMost(QueueKey(r[k]), QueueKey(tasks[t]));
  }

  /**
   * `_worker_has_pending_regular_task`: although it looks at the queue window only, for a background task of
   * the window its answer is that of the whole table.
   */
  method HasPendingRegular(tasks: TaskTable, w: WorkerConfig, background: Task) returns (pending: bool)
    requires KeyedById(tasks)
    ensures pending ==> exists t :: t in tasks && Blocks(tasks[t], w, background)
    ensures !pending ==> NoneBlocks(tasks, w, background)
    ensures InWindow(tasks, background) ==> (pending <==> exists t :: t in tasks && Blocks(tasks[t], w, background))
  {
    var queued := QueuedTasks(tasks);
    for i := 0 to |queued|
      invariant forall k | 0 <= k < i :: !Blocks(queued[k], w, background)
    {
      if Blocks(queued[i], w, background) {
        assert queued[i].id in tasks;
        return true;
      }
    }
    assert forall t | t in queued :: !Blocks(t, w, background);
    forall t | t in tasks && background in queued
      ensures !Blocks(tasks[t], w, background)
    {
      if Blocks(tasks[t], w, background) {
        BlockersAreInWindow(tasks, queued, w, background, t);
      }
    }
    return false;
  }

  // ----- the window while background tasks leave it -----

  /** The queue only loses tasks: whoever is queued now was queued then, with the same row. */
  ghost predicate QueueShrinks(start: TaskTable, now: TaskTable) {
    now.Keys == start.Keys && forall t | t in now && now[t].status == Queued :: now[t] == start[t]
  }

  lemma {:induction false} ElementsOfDistinct(r: seq<Task>)
    requires DistinctIds(r)
    ensures |Elements(r)| == |r|
  {
    if r != [] {
      var n := |r| - 1;
      ElementsOfDistinct(r[..n]);
      assert r == r[..n] + [r[n]];
      ElementsAppend(r[..n], r[n]);
      assert r[n] !in r[..n];
    }
  }

  /** A row of another window that comes before a listed one is listed as well. */
  lemma {:induction false} EarlierIsListed(start: TaskTable, now: TaskTable, listed: seq<Task>, r: seq<Task>, t: Task,
                                           u: Task)
    requires KeyedById(start) && QueueShrinks(start, now)
    requires QueueWindow(start, listed) && QueueWindow(now, r)
    requires t in listed && u in r && u != t && AtMost(QueueKey(u), QueueKey(t))
    ensures u in listed
  {
    var k :| 0 <= k < |listed| && listed[k] == t;
    assert u.id in now && now[u.id] == u && start[u.id] == u;
    assert start[t.id] == t && u.id != t.id;
    assert !AtMost(QueueKey(listed[k]), QueueKey(u));
  }

  /** A row of the first window that is still queued is in every later window. */
  lemma {:induction false} StaysInWindow(start: TaskTable, now: TaskTable, listed: seq<Task>, t: Task)
    requires KeyedById(start) && QueueShrinks(start, now)
    requires QueueWindow(start, listed) && t in listed
    requires t.id in now && now[t.id] == t && t.status == Queued
    ensures InWindow(now, t)
  {
    forall r: seq<Task> | QueueWindow(now, r)
      ensures t in r
    {
      if t !in r {
        forall u | u in r
          ensures u in listed && u != t
        {
          EarlierIsListed(start, now, listed, r, t, u);
        }
        ElementsOfDistinct(r);
        ElementsOfDistinct(listed);
        SubsetSize(Elements(r) + {t}, Elements(listed));
        assert false;
      }
    }
  }

  lemma {:induction false} ListedIsInWindow(start: TaskTable, now: TaskTable, listed: seq<Task>, i: nat)
    requires KeyedById(start) && QueueShrinks(start, now) && QueueWindow(start, listed)
    requires i < |listed| && listed[i].id in now && now[listed[i].id] == listed[i]
    ensures InWindow(now, listed[i])
  {
    StaysInWindow(start, now, listed, listed[i]);
  }

  lemma {:induction false} QueueShrinksMore(start: TaskTable, before: TaskTable, after: TaskTable, id: TaskId)
    ensures QueueShrinks(start, start)
    ensures QueueShrinks(start, before) && Leaves(before, after, id) ==> QueueShrinks(start, after)
  {
  }

  /** At most this one row changed, and it runs now. */
  ghost predicate Leaves(before: TaskTable, after: TaskTable, id: TaskId) {
    || after == before
    || (id in before && id in after && after[id].status == Running && after == before[id := after[id]])
  }

  lemma {:induction false} EmptyWindow(tasks: TaskTable, queued: seq<Task>)
    requires QueueWindow(tasks, queued)
    ensures queued == [] <==> WithStatus(tasks, Queued) == {}
  {
    if queued != [] {
      assert queued[0].id in WithStatus(tasks, Queued);
    }
    if t :| t in WithStatus(tasks, Queued) {
      assert tasks[t] in queued || |queued| == QUEUE_LIMIT;
    }
  }

  lemma {:induction false} BackgroundBegins(tasks: TaskTable, queued: seq<Task>, steps: seq<Action>)
    requires KeyedById(tasks) && QueueWindow(tasks, queued)
    ensures StillListed(tasks, queued, 0)
    ensures forall k | 0 <= k < |queued| :: queued[k].status == Queued
    ensures steps + [] == steps
  {
  }

  // ----- the invariant of the regular phase -----

  /** Nothing is created, edited or removed while a pass runs. */
  ghost predicate SameTasks(start: TaskTable, now: TaskTable) {
    && now.Keys == start.Keys
    && forall t | t in start :: SameTask(start[t], now[t])
  }

  ghost predicate SameTask(a: Task, b: Task) {
    && b.id == a.id && b.options == a.options && b.createdAt == a.createdAt
    && b.lastStart == a.lastStart && b.lastStop == a.lastStop
  }

  /** Distinct regular tasks, in non-increasing priority. */
  ghost predicate Descending(tasks: TaskTable, attempts: seq<TaskId>) {
    && (forall a | a in attempts :: a in tasks && !tasks[a].options.background)
    && (forall i, j | 0 <= i < j < |attempts| ::
          attempts[i] != attempts[j] && tasks[attempts[i]].options.priority >= tasks[attempts[j]].options.priority)
  }

  /**
   * What a task's status says about the steps so far: running ones ran from the start or were started, killed ones wait
   * or were restarted.
   */
  ghost predicate StatusesExplained(start: TaskTable, now: TaskTable, steps: seq<Action>) {
    && now.Keys == start.Keys
    && (forall t | t in now && now[t].status == Running :: start[t].status == Running || t in Started(steps))
    && (forall k | k in Killed(steps) ::
       k in now && start[k].status == Running && (now[k].status == Queued || k in Started(steps)))
    && Started(steps) <= now.Keys
  }

  /** No regular task that still waits has a higher priority than the last attempted one. */
  ghost predicate RestIsLower(now: TaskTable, attempts: seq<TaskId>) {
    attempts != [] ==>
      attempts[|attempts| - 1] in now &&
      forall t | Waiting(now, Elements(attempts), t) ::
        now[t].options.priority <= now[attempts[|attempts| - 1]].options.priority
  }

  /** Every attempted task that waits again or still is within the window. */
  ghost predicate AttemptedWithin(now: TaskTable, attempts: seq<TaskId>) {
    forall a | a in attempts && a in now && now[a].status == Queued :: Within(now, a)
  }

  ghost predicate RegularPhase(start: TaskTable, now: TaskTable, attempts: seq<TaskId>, steps: seq<Action>) {
    && SameTasks(start, now)
    && Descending(start, attempts)
    && Started(steps) <= Elements(attempts)
    && StatusesExplained(start, now, steps)
    && RestIsLower(now, attempts)
    && AttemptedWithin(now, attempts)
    && Ordered(steps)
  }

  lemma {:induction false} NextIsWaiting(tasks: TaskTable, attempted: set<TaskId>, id: TaskId)
    requires NextInQueue(tasks, attempted, id)
    ensures Waiting(tasks, attempted, id)
  {
  }

  lemma {:induction false} PhaseMeans(start: TaskTable, now: TaskTable, attempts: seq<TaskId>, steps: seq<Action>)
    requires RegularPhase(start, now, attempts, steps)
    ensures Elements(attempts) <= start.Keys == now.Keys
    ensures KeyedById(start) ==> KeyedById(now)
  {
    hide Killed, Started, Ordered;
    forall t | t in start
      ensures SameTask(start[t], now[t])
    {
    }
  }

  lemma {:induction false} RegularPhaseStarts(start: TaskTable)
    ensures RegularPhase(start, start, [], [])
  {
  }

  lemma {:induction false} AttemptKeepsTasks(start: TaskTable, before: TaskTable, after: TaskTable, id: TaskId,
                                             more: seq<Action>)
    requires SameTasks(start, before) && id in before && AttemptEffect(before, after, id, more)
    ensures SameTasks(start, after)
  {
    hide Killed, Started, Ordered;
    forall t | t in start
      ensures SameTask(start[t], after[t])
    {
      assert SameTask(start[t], before[t]);
    }
  }

  lemma {:induction false} AttemptKeepsDescending(start: TaskTable, before: TaskTable, attempts: seq<TaskId>,
                                                  id: TaskId)
    requires SameTasks(start, before) && Descending(start, attempts) && RestIsLower(before, attempts)
    requires NextInQueue(before, Elements(attempts), id)
    ensures Descending(start, attempts + [id])
    ensures forall a | a in attempts :: a in before && before[a].options.priority >= before[id].options.priority
  {
    assert SameTask(start[id], before[id]);
    forall a | a in attempts
      ensures a in before && before[a].options.priority >= before[id].options.priority
    {
      var i :| 0 <= i < |attempts| && attempts[i] == a;
      var last := attempts[|attempts| - 1];
      assert last in attempts;
      assert SameTask(start[a], before[a]) && SameTask(start[last], before[last]);
      assert before[last].options.priority >= before[id].options.priority;
      if i < |attempts| - 1 {
        assert start[attempts[i]].options.priority >= start[last].options.priority;
      }
    }
    forall i | 0 <= i < |attempts|
      ensures attempts[i] != id && start[attempts[i]].options.priority >= start[id].options.priority
    {
      assert attempts[i] in attempts;
      assert SameTask(start[attempts[i]], before[attempts[i]]);
    }
  }

  /** A victim was neither killed nor started earlier in the pass. */
  lemma {:induction false} VictimsAreNew(start: TaskTable, before: TaskTable, after: TaskTable, attempts: seq<TaskId>,
                                         id: TaskId,
                                         steps: seq<Action>, more: seq<Action>)
    requires id in before && AttemptEffect(before, after, id, more)
    requires StatusesExplained(start, before, steps) && Started(steps) <= Elements(attempts)
    requires forall a | a in attempts :: a in before && before[a].options.priority >= before[id].options.priority
    ensures Killed(more) !! Killed(steps) && Killed(more) !! Started(steps)
  {
    hide Killed, Started, Ordered;
  }

  lemma {:induction false} AttemptKeepsStatuses(start: TaskTable, before: TaskTable, after: TaskTable, id: TaskId,
                                                steps: seq<Action>, more: seq<Action>)
    requires id in before && before[id].status == Queued && AttemptEffect(before, after, id, more)
    requires StatusesExplained(start, before, steps)
    requires Killed(more) !! Started(steps)
    ensures StatusesExplained(start, after, steps + more)
  {
    hide Killed, Started, Ordered;
    Concatenated(steps, more);
  }

  lemma {:induction false} AttemptKeepsRestLower(before: TaskTable, after: TaskTable, attempts: seq<TaskId>, id: TaskId,
                                                 more: seq<Action>)
    requires NextInQueue(before, Elements(attempts), id) && AttemptEffect(before, after, id, more)
    ensures RestIsLower(after, attempts + [id])
  {
    hide Killed, Started, Ordered;
    forall t | Waiting(after, Elements(attempts + [id]), t)
      ensures after[t].options.priority <= after[id].options.priority
    {
      assert id in attempts + [id];
      assert t !in Killed(more) ==> Waiting(before, Elements(attempts), t);
    }
  }

  /** An attempt queues only tasks of lower priority, so no row gets ahead of the attempted ones. */
  lemma {:induction false} AheadShrinks(before: TaskTable, after: TaskTable, id: TaskId, more: seq<Action>, a: TaskId)
    requires id in before && AttemptEffect(before, after, id, more)
    requires a in before && before[a].options.priority >= before[id].options.priority
    requires a in after && after[a].status == Queued
    ensures before[a].status == Queued && Ahead(after, a) <= Ahead(before, a)
  {
    hide Killed, Started, Ordered;
    assert after[a] == before[a];
    forall u | u in Ahead(after, a)
      ensures u in Ahead(before, a)
    {
      assert u !in Killed(more);
      assert after[u] == before[u];
    }
  }

  lemma {:induction false} AttemptKeepsWithin(before: TaskTable, after: TaskTable, attempts: seq<TaskId>, id: TaskId,
                                              more: seq<Action>)
    requires NextInQueue(before, Elements(attempts), id) && AttemptEffect(before, after, id, more)
    requires forall a | a in attempts :: a in before && before[a].options.priority >= before[id].options.priority
    requires AttemptedWithin(before, attempts)
    ensures AttemptedWithin(after, attempts + [id])
  {
    hide Killed, Started, Ordered, AttemptEffect, Ahead;
    forall a | a in attempts + [id] && a in after && after[a].status == Queued
      ensures Within(after, a)
    {
      AheadShrinks(before, after, id, more, a);
      SubsetSize(Ahead(after, a), Ahead(before, a));
    }
  }

  /**
   * When the regular loop ends, a queued regular task was attempted if and only if fewer rows than the
   * window's limit come before it in the queue, whether regular or background.
   */
  lemma {:induction false} AttemptedExactly(start: TaskTable, now: TaskTable, attempts: seq<TaskId>,
                                            steps: seq<Action>)
    requires RegularPhase(start, now, attempts, steps) && KeyedById(now)
    requires WindowExhausted(now, Elements(attempts))
    ensures ReachedExactly(now, Elements(attempts))
  {
    hide Killed, Started, Ordered, SameTasks, Descending, StatusesExplained, RestIsLower, QueueWindow, Within;
    var r: seq<Task> :| QueueWindow(now, r)
      && forall i | 0 <= i < |r| :: !Waiting(now, Elements(attempts), r[i].id);
    forall t | t in now && now[t].status == Queued && !now[t].options.background
      ensures t in Elements(attempts) <==> Within(now, t)
    {
      WindowExactly(now, r, t);
    }
  }

  lemma {:induction false} EffectStarts(before: TaskTable, after: TaskTable, id: TaskId, more: seq<Action>)
    requires id in before && AttemptEffect(before, after, id, more)
    ensures Started(more) <= {id} && Ordered(more)
  {
    hide Killed, Started, Ordered;
  }

  /** Every attempt keeps the phase's invariant, though its victims join the queue it is taken from. */
  lemma {:induction false} AttemptKeepsPhase(start: TaskTable, before: TaskTable, after: TaskTable,
                                             attempts: seq<TaskId>, id: TaskId,
                                             steps: seq<Action>, more: seq<Action>)
    requires RegularPhase(start, before, attempts, steps)
    requires NextInQueue(before, Elements(attempts), id)
    requires AttemptEffect(before, after, id, more)
    ensures RegularPhase(start, after, attempts + [id], steps + more)
  {
    hide Killed, Started, Ordered, SameTasks, Descending, StatusesExplained, RestIsLower, AttemptedWithin,
      AttemptEffect, Within, Elements;
    AttemptKeepsTasks(start, before, after, id, more);
    AttemptKeepsDescending(start, before, attempts, id);
    VictimsAreNew(start, before, after, attempts, id, steps, more);
    AttemptKeepsStatuses(start, before, after, id, steps, more);
    AttemptKeepsRestLower(before, after, attempts, id, more);
    AttemptKeepsWithin(before, after, attempts, id, more);
    ElementsAppend(attempts, id);
    EffectStarts(before, after, id, more);
    Concatenated(steps, more);
  }
}
