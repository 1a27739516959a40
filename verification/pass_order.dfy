/** What a stretch of the log did to sessions, and the order it did it in. */
module PassOrder {
  import opened Models
  import opened Lifecycle
  import opened Capacity
  import opened Protocol
  import opened Remote

  /** The tasks whose session was successfully killed. */
  ghost function Killed(steps: seq<Action>): set<TaskId> {
    if steps == [] then {}
    else
      var n := |steps| - 1;
      Killed(steps[..n]) + if steps[n].Kill? then {steps[n].id} else {}
  }

  /** The tasks that were started. */
  ghost function Started(steps: seq<Action>): set<TaskId> {
    if steps == [] then {}
    else
      var n := |steps| - 1;
      Started(steps[..n]) + if steps[n].Start? then {steps[n].id} else {}
  }

  /** The last two steps. */
  ghost predicate EndsWith(steps: seq<Action>, kill: Action, end: Action) {
    |steps| >= 2 && steps[|steps| - 2] == kill && steps[|steps| - 1] == end
  }

  /** No session is killed twice, and none that was started here is killed here. */
  ghost predicate Ordered(steps: seq<Action>) {
    steps == [] ||
    (var n := |steps| - 1;
     && Ordered(steps[..n])
     && (steps[n].Kill? ==> steps[n].id !in Killed(steps[..n]) && steps[n].id !in Started(steps[..n])))
  }

  /** `Ordered`, said about positions. */
  lemma {:induction false} OrderedMeaning(steps: seq<Action>, i: nat, j: nat)
    requires Ordered(steps) && i < j < |steps|
    requires steps[j].Kill?
    ensures steps[i].Kill? || steps[i].Start? ==> steps[i].id != steps[j].id
    decreases |steps|
  {
    var n := |steps| - 1;
    if j < n {
      OrderedMeaning(steps[..n], i, j);
    } else {
      Recorded(steps[..n], i);
    }
  }

  lemma {:induction false} Recorded(steps: seq<Action>, i: nat)
    requires i < |steps|
    ensures steps[i].Kill? ==> steps[i].id in Killed(steps)
    ensures steps[i].Start? ==> steps[i].id in Started(steps)
  {
    if i < |steps| - 1 {
      Recorded(steps[..|steps| - 1], i);
    }
  }

  lemma {:induction false} Concatenated(a: seq<Action>, b: seq<Action>)
    ensures Killed(a + b) == Killed(a) + Killed(b)
    ensures Started(a + b) == Started(a) + Started(b)
    ensures Ordered(a) && Ordered(b) && Killed(b) !! Killed(a) && Killed(b) !! Started(a) ==> Ordered(a + b)
  {
    if b == [] {
      assert a + b == a;
    } else {
      var n := |b| - 1;
      assert (a + b)[..|a + b| - 1] == a + b[..n];
      Concatenated(a, b[..n]);
    }
  }

  lemma {:induction false} SpontaneousKillsNothing(steps: seq<Action>)
    requires Spontaneous(steps)
    ensures Killed(steps) == {} && Started(steps) == {} && Ordered(steps)
  {
    if steps != [] {
      SpontaneousKillsNothing(steps[..|steps| - 1]);
    }
  }

  lemma {:induction false} NoSteps()
    ensures Killed([]) == {} && Started([]) == {} && Ordered([])
  {
  }

  lemma {:induction false} OneStep(a: Action)
    ensures Killed([a]) == if a.Kill? then {a.id} else {}
    ensures Started([a]) == if a.Start? then {a.id} else {}
    ensures Ordered([a])
  {
    assert [a][..0] == [];
  }

  // ----- joining runs -----

  lemma {:induction false} LegalConcat(workers: seq<WorkerConfig>, w: World, a: seq<Action>, b: seq<Action>)
    requires Legal(workers, w, a) && Legal(workers, After(w, a), b)
    ensures Legal(workers, w, a + b)
    ensures After(w, a + b) == After(After(w, a), b)
  {
    if b == [] {
      assert a + b == a;
    } else {
      assert (a + b)[..|a + b| - 1] == a + b[..|b| - 1];
      LegalConcat(workers, w, a, b[..|b| - 1]);
    }
  }

  lemma {:induction false} RunContinues(workers: seq<WorkerConfig>, log: seq<Action>, w: World, steps: seq<Action>)
    requires Run(workers, log, w) && Legal(workers, w, steps)
    ensures Run(workers, log + steps, After(w, steps))
  {
    LegalConcat(workers, EMPTY, log, steps);
  }

  /** Spontaneous steps followed by one action of the scheduler. */
  lemma {:induction false} DriftThen(workers: seq<WorkerConfig>, log: seq<Action>, w: World, drift: seq<Action>,
                                     a: Action)
    requires Run(workers, log, w)
    requires Spontaneous(drift) && Legal(workers, w, drift)
    requires Enabled(workers, After(w, drift), a)
    ensures Run(workers, log + (drift + [a]), Next(After(w, drift), a))
    ensures Killed(drift + [a]) == if a.Kill? then {a.id} else {}
    ensures Started(drift + [a]) == if a.Start? then {a.id} else {}
    ensures Ordered(drift + [a])
  {
    RunContinues(workers, log, w, drift);
    RunExtends(workers, log + drift, After(w, drift), a);
    assert log + drift + [a] == log + (drift + [a]);
    SpontaneousKillsNothing(drift);
    OneStep(a);
    Concatenated(drift, [a]);
  }

  // ----- the scheduler's remote steps, each after what the workers did meanwhile -----

  ghost function Drifted(w: World, drift: seq<Action>): World {
    After(World(map[], w.live, w.exits), drift)
  }

  ghost predicate Drift(w: World, drift: seq<Action>) {
    Spontaneous(drift) && Legal([], World(map[], w.live, w.exits), drift)
  }

  lemma {:induction false} OnlyDrift(workers: seq<WorkerConfig>, log: seq<Action>, w: World, drift: seq<Action>)
    requires Run(workers, log, w) && Drift(w, drift)
    ensures Run(workers, log + drift, World(w.tasks, Drifted(w, drift).live, Drifted(w, drift).exits))
    ensures Drifted(w, drift).live <= w.live
    ensures forall s | s in w.exits && s !in w.live ::
              s in Drifted(w, drift).exits && Drifted(w, drift).exits[s] == w.exits[s]
    ensures Killed(drift) == {} && Started(drift) == {} && Ordered(drift)
  {
    SpontaneousSteps(workers, w.tasks, w.live, w.exits, drift);
    SpontaneousKillsNothing(drift);
    RunContinues(workers, log, w, drift);
  }

  lemma {:induction false} StartStep(workers: seq<WorkerConfig>, log: seq<Action>, w: World, drift: seq<Action>,
                                     a: Action)
    requires Run(workers, log, w) && Drift(w, drift)
    requires a.Start? && Enabled(workers, w, a)
    ensures var site := Site(a.worker.name, a.id);
            Run(workers, log + (drift + [a]),
                World(w.tasks[a.id := MarkedRunning(w.tasks[a.id], a.worker.name, a.gpus, site, a.at)],
                      Drifted(w, drift).live + {site}, Drifted(w, drift).exits - {site}))
    ensures Killed(drift + [a]) == {} && Started(drift + [a]) == {a.id} && Ordered(drift + [a])
  {
    hide Fits, ValidOptions, Editable, Claimable;
    SpontaneousSteps(workers, w.tasks, w.live, w.exits, drift);
    DriftThen(workers, log, w, drift, a);
  }

  lemma {:induction false} ClearStep(workers: seq<WorkerConfig>, log: seq<Action>, w: World, drift: seq<Action>,
                                     a: Action)
    requires Run(workers, log, w) && Drift(w, drift)
    requires a.ClearExit? && Enabled(workers, w, a)
    ensures Run(workers, log + (drift + [a]),
                World(w.tasks, Drifted(w, drift).live, Drifted(w, drift).exits - {Site(a.worker.name, a.id)}))
    ensures Killed(drift + [a]) == {} && Started(drift + [a]) == {} && Ordered(drift + [a])
  {
    hide Fits, ValidOptions, Editable, Claimable;
    SpontaneousSteps(workers, w.tasks, w.live, w.exits, drift);
    DriftThen(workers, log, w, drift, a);
  }

  lemma {:induction false} KillStep(workers: seq<WorkerConfig>, log: seq<Action>, w: World, drift: seq<Action>,
                                    id: TaskId)
    requires Run(workers, log, w) && Drift(w, drift)
    requires Enabled(workers, w, Kill(id))
    ensures Run(workers, log + (drift + [Kill(id)]),
                World(w.tasks, Drifted(w, drift).live - {SiteOf(w.tasks[id])}, Drifted(w, drift).exits))
    ensures Killed(drift + [Kill(id)]) == {id} && Started(drift + [Kill(id)]) == {} && Ordered(drift + [Kill(id)])
  {
    hide Fits, ValidOptions, Editable, Claimable;
    SpontaneousSteps(workers, w.tasks, w.live, w.exits, drift);
    DriftThen(workers, log, w, drift, Kill(id));
  }
}
