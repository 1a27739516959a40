/** Queues in which the first hundred rows shut a waiting regular task out of the window, and so of the pass. */
module QueueGap {
  import opened Models
  import opened Lifecycle
  import opened Queries
  import opened DispatchPass

  /** Equally urgent and equally old rows; all but the one beyond the window may be background tasks. */
  function Row(i: TaskId, background: bool): Task {
    var b := background && i < QUEUE_LIMIT;
    NewRow(i, TaskOptions(0, 1, None, None, None, None, 0, b, false, b, false, None, None, "UTC"), false, 0)
  }

  /** One row more than the window holds. */
  ghost function Tasks(background: bool): TaskTable {
    map i: nat | i <= QUEUE_LIMIT :: Row(i, background)
  }

  ghost function Attempted(background: bool): set<TaskId> {
    if background then {} else Tasks(false).Keys - {QUEUE_LIMIT}
  }

  ghost function Listed(background: bool): (r: seq<Task>)
    ensures |r| == QUEUE_LIMIT && forall i: nat | i < QUEUE_LIMIT :: r[i] == Row(i, background)
  {
    seq(QUEUE_LIMIT, i requires 0 <= i < QUEUE_LIMIT => Row(i, background))
  }

  lemma {:induction false} RowKey(i: TaskId, background: bool)
    ensures QueueKey(Row(i, background)) == SortKey(0, 0, i)
    ensures Row(i, background).id == i && Row(i, background).status == Queued
    ensures i == QUEUE_LIMIT ==> !Row(i, background).options.background
    ensures background && i < QUEUE_LIMIT ==> Row(i, background).options.background
  {
  }

  lemma {:induction false} ListedIsWindow(background: bool)
    ensures KeyedById(Tasks(background)) && QueueWindow(Tasks(background), Listed(background))
    ensures Tasks(background)[QUEUE_LIMIT] !in Listed(background)
  {
    hide Row, QueueKey, Listed;
    forall i: nat | i <= QUEUE_LIMIT
      ensures Tasks(background)[i] == Row(i, background)
      ensures QueueKey(Row(i, background)) == SortKey(0, 0, i)
      ensures Row(i, background).id == i && Row(i, background).status == Queued
    {
      RowKey(i, background);
    }
    var r := Listed(background);
    forall t | t in Tasks(background) && t != QUEUE_LIMIT
      ensures Tasks(background)[t] in r
    {
      assert r[t] == Tasks(background)[t];
    }
  }

  /**
   * The pass ends though the last task was never attempted: after a hundred attempts that started nothing,
   * or, behind a hundred background rows, without any attempt.
   */
  lemma {:induction false} LastIsShutOut(background: bool)
    ensures WindowExhausted(Tasks(background), Attempted(background))
    ensures Waiting(Tasks(background), Attempted(background), QUEUE_LIMIT)
    ensures !Within(Tasks(background), QUEUE_LIMIT)
  {
    var tasks, r := Tasks(background), Listed(background);
    ListedIsWindow(background);
    RowKey(QUEUE_LIMIT, background);
    WindowExactly(tasks, r, QUEUE_LIMIT);
    hide Row, Listed, QueueWindow, Within;
    forall i: nat | i < QUEUE_LIMIT
      ensures !Waiting(tasks, Attempted(background), r[i].id)
    {
      RowKey(i, background);
      assert r[i] == Row(i, background) && i in tasks && tasks[i] == Row(i, background);
      assert !background ==> i in Tasks(false) && i != QUEUE_LIMIT;
    }
  }
}
