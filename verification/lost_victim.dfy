/** A run in which a task that succeeded is chosen as a victim and put back in the queue. */
module LostVictim {
  import opened Models
  import opened Lifecycle
  import opened Queries
  import opened Capacity
  import opened Occupancy
  import opened GpuConditions
  import opened Placement
  import opened Victims
  import opened Remote
  import opened Protocol
  import opened Safety
  import opened PassOrder
  import opened DispatchEffects
  import opened PassTrace
  import opened Refresh
  import opened WorkerHealth

  const WORKER := WorkerConfig("w", true, [0], None, 1)
  const WORKERS := [WORKER]
  const LOW := TaskOptions(0, 1, None, None, None, None, 0, true, false, true, false, None, None, "UTC")
  const WANTED := TaskOptions(1, 1, None, None, None, None, 0, false, false, false, false, None, None, "UTC")
  const SITE := Site("w", 0)
  const CREATED := NewRow(0, LOW, false, 0)
  const STARTED := MarkedRunning(CREATED, "w", [0], SITE, 0)
  const WAITING := NewRow(1, WANTED, false, 1)

  /** A background task is created and started on the only GPU; then a regular one of higher priority waits. */
  const LOG := [Create(0, LOW, false, 0), Start(0, WORKER, [0], 0), Create(1, WANTED, false, 1)]
  const BEGUN := World(map[0 := STARTED, 1 := WAITING], {SITE}, map[])

  lemma {:induction false} FirstSteps()
    ensures Enabled(WORKERS, EMPTY, LOG[0]) && Next(EMPTY, LOG[0]) == World(map[0 := CREATED], {}, map[])
    ensures Enabled(WORKERS, World(map[0 := CREATED], {}, map[]), LOG[1])
    ensures Next(World(map[0 := CREATED], {}, map[]), LOG[1]) == World(map[0 := STARTED], {SITE}, map[])
  {
    assert BusyGpus(map[0 := CREATED], "w") == {} && BackgroundOn(map[0 := CREATED], "w") == {};
  }

  lemma {:induction false} ThirdStep()
    ensures Enabled(WORKERS, World(map[0 := STARTED], {SITE}, map[]), LOG[2])
    ensures Next(World(map[0 := STARTED], {SITE}, map[]), LOG[2]) == BEGUN
  {
  }

  lemma {:induction false} NoStepsIsRun()
    ensures Run(WORKERS, [], EMPTY)
  {
  }

  lemma {:induction false} BegunIsReached()
    ensures ValidWorkers(WORKERS)
    ensures Run(WORKERS, LOG, BEGUN)
  {
    hide Run, Legal, After, Fits, Enabled, Next;
    FirstSteps();
    ThirdStep();
    NoStepsIsRun();
    RunExtends(WORKERS, [], EMPTY, LOG[0]);
    assert [] + [LOG[0]] == LOG[..1];
    RunExtends(WORKERS, LOG[..1], World(map[0 := CREATED], {}, map[]), LOG[1]);
    assert LOG[..1] + [LOG[1]] == LOG[..2];
    RunExtends(WORKERS, LOG[..2], World(map[0 := STARTED], {SITE}, map[]), LOG[2]);
    assert LOG[..2] + [LOG[2]] == LOG;
  }

  // ----- the round of the tick sees it alive -----

  const TURN := Turn(BEGUN, 0, Alive, [], [],
                     [ExitAnswer(SITE, Ok(None), map[]), SessionAnswer(SITE, Ok(true), {SITE})], [Probe("w", true)])

  lemma {:induction false} SeenAlive()
    ensures Lists([STARTED], BEGUN.tasks, WithStatus(BEGUN.tasks, Running)) && SortedBy(StartedKey, [STARTED])
    ensures Reconciles(WORKERS, BEGUN, [STARTED], [TURN], BEGUN, 1)
  {
    NoDrift(BEGUN);
    hide Drift, Drifted;
    assert [STARTED][..0] == [] && [TURN][..0] == [];
    assert TurnMade(TURN, STARTED);
    assert AfterTurn(TURN, STARTED, 1) == BEGUN;
    assert RoundProbes([]) == [];
    assert Inspects(WORKERS, STARTED, []);
    assert Reconciles(WORKERS, BEGUN, [], [], BEGUN, 1);
  }

  // ----- then it exits, and is preempted in the same tick -----

  const AFTER_EXIT := World(BEGUN.tasks, {}, map[SITE := 0])
  const ENDED := World(map[0 := Requeued(STARTED), 1 := WAITING], {}, map[SITE := 0])
  const LATER := [SessionExits(SITE, 0), Kill(0), Preempt(0)]

  /** It exits with code 0, is killed without effect and queued again; its code stays on disk unread. */
  lemma {:induction false} SuccessIsPreempted()
    ensures Run(WORKERS, LOG + LATER, ENDED)
    ensures ENDED.tasks[0].status == Queued && ENDED.exits[SITE] == 0
    ensures Ends(AFTER_EXIT, ENDED, 0) && LeftUnread(AFTER_EXIT, ENDED, 0)
  {
    BegunIsReached();
    hide Run, Legal, After, Fits;
    RunExtends(WORKERS, LOG, BEGUN, LATER[0]);
    assert LOG + [LATER[0]] == LOG + LATER[..1];
    RunExtends(WORKERS, LOG + LATER[..1], AFTER_EXIT, LATER[1]);
    assert LOG + LATER[..1] + [LATER[1]] == LOG + LATER[..2];
    RunExtends(WORKERS, LOG + LATER[..2], AFTER_EXIT, LATER[2]);
    assert Next(AFTER_EXIT, LATER[2]) == ENDED by {
      assert BEGUN.tasks[0 := Requeued(STARTED)] == ENDED.tasks;
    }
    assert LOG + LATER[..2] + [LATER[2]] == LOG + LATER;
  }

  const VIEW := View(BEGUN.tasks, map[], DaemonConfig(100, 10), 1)
  const REPORTED := [GpuState(0, 0, 0, 1000, None)]
  const STATES: WorkerStates := map["w" := REPORTED]
  const SEARCH := Search(WORKERS, WANTED, VIEW, STATES, VIEW.(tasks := ENDED.tasks), map[])

  /** The regular task's attempt: the kill succeeds, and the worker does not answer the probe that follows. */
  const ATTEMPT := Attempt(1, SEARCH, ByCount(BackgroundRule, WORKER, [STARTED]), None, {0}, false,
                           [KillRequest(SITE)])

  lemma {:induction false} Holdings()
    ensures KeyedById(BEGUN.tasks) && OnWorker(BEGUN.tasks, "w") == {0}
    ensures 0 in BusyGpus(BEGUN.tasks, "w") && DistinctIndexes(REPORTED)
    ensures forall g | g in REPORTED :: g.index == 0
  {
    assert 0 in OnWorker(BEGUN.tasks, "w");
    assert BEGUN.tasks[0].gpus[0] == 0;
    assert 0 in BEGUN.tasks[0].gpus;
  }

  lemma {:induction false} NothingFree()
    ensures Available(VIEW, "w", REPORTED, WANTED) == []
  {
    hide BusyGpus, Available, Satisfies;
    var free := Available(VIEW, "w", REPORTED, WANTED);
    assert free != [] ==> free[0] in free;
    Holdings();
    AvailableMembers(VIEW, "w", REPORTED, WANTED);
  }

  lemma {:induction false} OnlyCandidate()
    ensures KeyedById(BEGUN.tasks)
    ensures Candidates(BackgroundRule, WANTED, BEGUN.tasks, "w") == [STARTED]
  {
    Holdings();
    hide Candidates;
    CandidatesMembers(BackgroundRule, WANTED, BEGUN.tasks, "w");
    var c := Candidates(BackgroundRule, WANTED, BEGUN.tasks, "w");
    assert BEGUN.tasks[0] == STARTED && STARTED in c;
    assert forall i | 0 <= i < |c| :: c[i] in c && c[i].id == 0;
    ListSize(c, BEGUN.tasks, {0});
    assert c[0] == STARTED;
  }

  lemma {:induction false} IsVictim()
    ensures KeyedById(BEGUN.tasks)
    ensures VictimsFor(BackgroundRule, VIEW, WANTED, STATES, WORKER, [STARTED])
    ensures CountRequests(BackgroundRule, VIEW, WANTED, STATES, WORKERS[..1]) == [KillRequest(SITE)]
  {
    OnlyCandidate();
    NothingFree();
    hide Candidates, Available, Held;
    SlotSumAppend([], STARTED);
    assert [] + [STARTED] == [STARTED] && |STARTED.gpus| == 1;
    VictimsOnIs(BackgroundRule, VIEW, WANTED, STATES, WORKER, [STARTED]);
    hide VictimsFor, VictimsOn;
    NextWorkerRequests(BackgroundRule, VIEW, WANTED, STATES, WORKERS, 0);
    NoRequests(BackgroundRule, VIEW, WANTED, STATES, WORKERS);
    assert WORKERS[..0 + 1] == WORKERS[..1];
  }

  lemma {:induction false} NoPlans()
    ensures BestPlan(WORKERS, VIEW, WANTED, STATES, None)
    ensures BestPlan(WORKERS, SEARCH.now, WANTED, map[], None)
  {
    NothingFree();
    assert Available(SEARCH.now, "w", [], WANTED) == [];
    hide Available;
    assert !Eligible(WORKERS, VIEW, WANTED, STATES, 0);
    assert !Eligible(WORKERS, SEARCH.now, WANTED, map[], 0);
  }

  /** The preemption is one that an attempt of a pass makes. */
  lemma {:induction false} AttemptPreempts()
    ensures AttemptMade(ATTEMPT, ENDED.tasks, 1)
  {
    NoPlans();
    IsVictim();
    hide BestPlan, VictimsFor, CountRequests;
    assert IdsOf([STARTED]) == {0} by {
      assert STARTED in [STARTED];
    }
    assert SEARCH.now.tasks == Released(BEGUN.tasks, {0});
    assert Asked(SEARCH, ATTEMPT.route, None, [KillRequest(SITE)]) by {
      assert SEARCH.workers[0] == WORKER;
    }
    assert ATTEMPT.requests == [KillRequest(SITE)] + Launch(None, 1);
  }
}
