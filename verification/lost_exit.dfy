/** A round of the refresh loop that throws away the exit code of a task that succeeded. */
module LostExit {
  import opened Models
  import opened Lifecycle
  import opened Queries
  import opened Capacity
  import opened Remote
  import opened Protocol
  import opened PassOrder
  import opened Refresh
  import opened WorkerHealth

  const WORKER := WorkerConfig("w", true, [0], None, 0)
  const WORKERS := [WORKER]
  const OPTIONS := TaskOptions(0, 1, None, None, None, None, 0, true, false, false, false, None, None, "UTC")
  const SITE := Site("w", 0)
  const CREATED := NewRow(0, OPTIONS, false, 0)
  const STARTED := MarkedRunning(CREATED, "w", [0], SITE, 0)

  /** A preemptible task is created and started. */
  const LOG := [Create(0, OPTIONS, false, 0), Start(0, WORKER, [0], 0)]
  const BEGUN := World(map[0 := STARTED], {SITE}, map[])

  /** Its exit file is read before the session exits, and the session is looked for after. */
  const TURN := Turn(BEGUN, 0, Missing, [], [SessionExits(SITE, 0)],
                     [ExitAnswer(SITE, Ok(None), map[]), SessionAnswer(SITE, Ok(false), {})],
                     [Probe("w", true)])
  const ENDED := World(map[0 := Requeued(STARTED)], {}, map[SITE := 0])

  lemma {:induction false} FirstSteps()
    ensures Enabled(WORKERS, EMPTY, LOG[0])
    ensures Next(EMPTY, LOG[0]) == World(map[0 := CREATED], {}, map[])
    ensures Enabled(WORKERS, World(map[0 := CREATED], {}, map[]), LOG[1])
    ensures Next(World(map[0 := CREATED], {}, map[]), LOG[1]) == BEGUN
  {
    assert BusyGpus(map[0 := CREATED], "w") == {};
  }

  lemma {:induction false} NoStepsIsRun()
    ensures Run(WORKERS, [], EMPTY)
  {
  }

  /** The state before the round is reached by a legal run. */
  lemma {:induction false} BegunIsReached()
    ensures ValidWorkers(WORKERS)
    ensures Run(WORKERS, LOG, BEGUN)
  {
    hide Run, Legal, After, Fits;
    FirstSteps();
    NoStepsIsRun();
    RunExtends(WORKERS, [], EMPTY, LOG[0]);
    assert [] + [LOG[0]] == LOG[..1];
    RunExtends(WORKERS, LOG[..1], World(map[0 := CREATED], {}, map[]), LOG[1]);
    assert LOG[..1] + [LOG[1]] == LOG;
  }

  lemma {:induction false} TurnDrifts()
    ensures Drift(BEGUN, []) && AtFirst(TURN) == BEGUN
    ensures Drift(BEGUN, [SessionExits(SITE, 0)])
    ensures AtSecond(TURN) == World(map[0 := STARTED], {}, map[SITE := 0])
  {
    NoDrift(BEGUN);
    assert [SessionExits(SITE, 0)][..0] == [];
    var bare := World(map[], {SITE}, map[]);
    assert Next(bare, SessionExits(SITE, 0)) == World(map[], {}, map[SITE := 0]);
  }

  /**
   * A whole round from there: the session exits with code 0 between the two questions, the task is put back
   * in the queue, and its exit code stays on disk unread.
   */
  lemma {:induction false} LossCanDiscardSuccess()
    ensures Lists([STARTED], BEGUN.tasks, WithStatus(BEGUN.tasks, Running)) && SortedBy(StartedKey, [STARTED])
    ensures Reconciles(WORKERS, BEGUN, [STARTED], [TURN], ENDED, 0)
    ensures ExitsIn(TURN.second, SITE)
    ensures ENDED.tasks[0].status == Queued && ENDED.exits[SITE] == 0
  {
    TurnDrifts();
    hide Drift, Drifted;
    assert [STARTED][..0] == [] && [TURN][..0] == [];
    assert TURN.second[0] == SessionExits(SITE, 0);
    assert TurnMade(TURN, STARTED);
    assert AfterTurn(TURN, STARTED, 0) == ENDED;
    assert RoundProbes([]) == [];
    assert Inspects(WORKERS, STARTED, []);
    assert Reconciles(WORKERS, BEGUN, [], [], BEGUN, 0);
  }
}
