/** A state in which an elastic resize migrates a task without changing its size. */
module ElasticGap {
  import opened Models
  import opened Lifecycle
  import opened Capacity
  import opened Occupancy
  import opened GpuSelection
  import opened Placement
  import opened Elastic
  import opened ElasticPhases
  import opened Protocol

  const OPTIONS := TaskOptions(0, 3, None, None, None, None, 0, true, false, true, true, None, None, "UTC")
  const WORKER := WorkerConfig("w", true, [], None, 1)
  const WORKERS := [WORKER]
  const CREATED := NewRow(0, OPTIONS, false, 0)
  const STARTED := MarkedRunning(CREATED, "w", [0], Site("w", 0), 0)

  /** An elastic task is created and started on GPU 0. */
  const LOG := [Create(0, OPTIONS, false, 0), Start(0, WORKER, [0], 0)]
  const BEGUN := World(map[0 := STARTED], {Site("w", 0)}, map[])

  /** Then a probe does not show GPU 0; GPU 1 is free and GPU 2 is not. */
  const FREE := GpuState(1, 0, 0, 1000, None)
  const REPORTED := [FREE, GpuState(2, 0, 100, 1000, None)]
  const STATES: WorkerStates := map["w" := REPORTED]
  const VIEW := View(BEGUN.tasks, map[], DaemonConfig(100, 10), 0)

  const UNSEEN := Situation(OPTIONS, WORKER, [0], REPORTED, [FREE], 0)

  lemma {:induction false} Steps()
    ensures Enabled(WORKERS, EMPTY, LOG[0]) && Next(EMPTY, LOG[0]) == World(map[0 := CREATED], {}, map[])
    ensures Enabled(WORKERS, World(map[0 := CREATED], {}, map[]), LOG[1])
    ensures Next(World(map[0 := CREATED], {}, map[]), LOG[1]) == BEGUN
  {
    assert BusyGpus(map[0 := CREATED], "w") == {} && BackgroundOn(map[0 := CREATED], "w") == {};
  }

  lemma {:induction false} NoStepsIsRun()
    ensures Run(WORKERS, [], EMPTY)
  {
  }

  /** The state is reached by a legal run. */
  lemma {:induction false} BegunIsReached()
    ensures ValidWorkers(WORKERS)
    ensures Run(WORKERS, LOG, BEGUN)
  {
    hide Run, Legal, After, Fits, Enabled, Next;
    Steps();
    NoStepsIsRun();
    RunExtends(WORKERS, [], EMPTY, LOG[0]);
    assert [] + [LOG[0]] == LOG[..1];
    RunExtends(WORKERS, LOG[..1], World(map[0 := CREATED], {}, map[]), LOG[1]);
    assert LOG[..1] + [LOG[1]] == LOG;
  }

  lemma {:induction false} OneIsFree()
    ensures Available(Excluding(VIEW, Some(0)), "w", REPORTED, OPTIONS) == [FREE]
  {
    var alone := Excluding(VIEW, Some(0));
    assert BusyGpus(alone.tasks, "w") == {};
    assert REPORTED[1..][1..] == [] && REPORTED[1..][0] == REPORTED[1];
    assert Qualifying(REPORTED[1..], {}, alone, "w", OPTIONS) == [];
    assert Qualifying(REPORTED, {}, alone, "w", OPTIONS) == [FREE];
    assert [FREE][1..] == [];
  }

  /** What a resize looks at in this state, with this probe. */
  lemma {:induction false} UnseenIsPosed()
    ensures IsElastic(STARTED) && Resizable(WORKERS, STATES, STARTED)
    ensures SituationOf(VIEW, WORKER, STATES, STARTED) == UNSEEN
  {
    OneIsFree();
    hide Available;
    assert VIEW.tasks - {0} == map[];
    assert Held(map[], "w") == {};
  }

  /** It does happen: this task is killed and restarted on one GPU again. */
  lemma {:induction false} SameSizeMigrationHappens(d: Resize)
    requires Decision(SituationOf(VIEW, WORKER, STATES, STARTED), d)
    ensures SituationOf(VIEW, WORKER, STATES, STARTED) == UNSEEN && UNSEEN.Valid()
    ensures d.Restart? && |d.gpus| == |STARTED.gpus|
  {
    UnseenIsPosed();
    hide Decision, SituationOf;
    assert UNSEEN.available[1..] == [] && UNSEEN.available[0] == FREE;
    assert Additional(UNSEEN.available[1..], UNSEEN.current) == [];
    assert FREE.index !in UNSEEN.current && UNSEEN.Extra() == [1];
    assert StateAt(UNSEEN.reported, 0) == None;
    assert 0 in UNSEEN.current;
    assert Missing(UNSEEN) == {0};
    SameSizeMigrationExactly(UNSEEN, d);
  }
}
