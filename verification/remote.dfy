/**
 * The remote side of gpu_watcher/remote.py: sessions and exit files. Any call may fail. Sessions run on
 * their own: before a call looks at the worker, live sessions may have exited or died.
 */
module Remote {
  import opened Models
  import opened Lifecycle
  import opened Protocol

  /** Steps that only the workers take. */
  ghost predicate Spontaneous(steps: seq<Action>) {
    forall i | 0 <= i < |steps| :: steps[i].SessionDies? || steps[i].SessionExits?
  }

  /** Spontaneous steps do not depend on the task table and never revive a session. */
  lemma {:induction false} SpontaneousSteps(workers: seq<WorkerConfig>, tasks: TaskTable, live: set<Site>,
                                            exits: map<Site, int>, steps: seq<Action>)
    requires Spontaneous(steps) && Legal([], World(map[], live, exits), steps)
    ensures Legal(workers, World(tasks, live, exits), steps)
    ensures var bare := After(World(map[], live, exits), steps);
            After(World(tasks, live, exits), steps) == World(tasks, bare.live, bare.exits)
    ensures After(World(map[], live, exits), steps).live <= live
    ensures forall s | s in exits && s !in live ::
              s in After(World(map[], live, exits), steps).exits
                && After(World(map[], live, exits), steps).exits[s] == exits[s]
  {
    if steps != [] {
      SpontaneousSteps(workers, tasks, live, exits, steps[..|steps| - 1]);
    }
  }

  lemma {:induction false} SpontaneousAppend(w: World, steps: seq<Action>, a: Action)
    requires Spontaneous(steps) && Legal([], w, steps)
    requires (a.SessionDies? || a.SessionExits?) && a.site in After(w, steps).live
    ensures Spontaneous(steps + [a]) && Legal([], w, steps + [a])
    ensures After(w, steps + [a]) == Next(After(w, steps), a)
  {
    assert (steps + [a])[..|steps|] == steps;
  }

  /** A request the scheduler made of a worker, whatever came of it. */
  datatype Request = LaunchRequest(site: Site) | KillRequest(site: Site)

  /** What a worker said when asked, with the files or sessions it looked at. */
  datatype Answer =
    | ExitAnswer(site: Site, code: Result<Option<int>>, exits: map<Site, int>)
    | SessionAnswer(site: Site, present: Result<bool>, live: set<Site>)

  /** A probe of a worker's GPUs, and what it reported if it answered. */
  datatype Look = Look(worker: WorkerName, states: Option<seq<GpuState>>)

  class RemoteExecutor {
    var live: set<Site>
    var exits: map<Site, int>
    ghost var requests: seq<Request>
    ghost var answers: seq<Answer>
    ghost var looks: seq<Look>

    constructor ()
      ensures live == {} && exits == map[] && requests == [] && answers == [] && looks == []
    {
      live, exits, requests, answers, looks := {}, map[], [], [], [];
    }

    ghost function Bare(): World
      reads this
    {
      World(map[], live, exits)
    }

    /** Sessions exit or die while nobody looks. */
    method Drift() returns (ghost steps: seq<Action>)
      modifies this`live, this`exits
      ensures Spontaneous(steps) && Legal([], old(Bare()), steps)
      ensures Bare() == After(old(Bare()), steps)
    {
      steps := [];
      assert Spontaneous(steps) && Legal([], Bare(), steps) && Bare() == After(Bare(), steps);
      hide Spontaneous, Legal, After, NextRow, SiteOf;
      var rounds: int := *;
      while rounds > 0
        invariant Spontaneous(steps) && Legal([], old(Bare()), steps)
        invariant Bare() == After(old(Bare()), steps)
      {
        rounds := rounds - 1;
        if live != {} {
          var site :| site in live;
          var dies: bool := *;
          if dies {
            SpontaneousAppend(old(Bare()), steps, SessionDies(site));
            steps := steps + [SessionDies(site)];
          } else {
            var code: int := *;
            SpontaneousAppend(old(Bare()), steps, SessionExits(site, code));
            exits := exits[site := code];
            steps := steps + [SessionExits(site, code)];
          }
          live := live - {site};
        }
      }
    }

    /** `probe_gpus`: the worker reports its GPUs, once each, or does not answer. */
    method ProbeGpus(worker: WorkerName) returns (r: Option<seq<GpuState>>)
      modifies this`looks
      ensures r.Some? ==> DistinctIndexes(r.value)
      ensures looks == old(looks) + [Look(worker, r)]
    {
      var reached: bool := *;
      if reached {
        var states: seq<GpuState> := *;
        var distinct := AllDistinct(states);
        r := if distinct then Some(states) else None;
      } else {
        r := None;
      }
      looks := looks + [Look(worker, r)];
    }

    /** Uploading the script clears the exit file before the session starts; either half may fail. */
    method StartTask(worker: WorkerName, id: TaskId)
      returns (session: Option<Site>, ghost steps: seq<Action>, ghost cleared: bool)
      modifies this`live, this`exits, this`requests
      ensures Spontaneous(steps) && Legal([], old(Bare()), steps)
      ensures var w := After(old(Bare()), steps);
              && live == (if session.Some? then w.live + {Site(worker, id)} else w.live)
              && exits == (if cleared then w.exits - {Site(worker, id)} else w.exits)
      ensures session.Some? ==> session.value == Site(worker, id) && cleared
      ensures requests == old(requests) + [LaunchRequest(Site(worker, id))]
    {
      steps := Drift();
      requests := requests + [LaunchRequest(Site(worker, id))];
      session, cleared := None, false;
      var uploaded: bool := *;
      if uploaded {
        exits := exits - {Site(worker, id)};
        cleared := true;
        var launched: bool := *;
        if launched {
          live := live + {Site(worker, id)};
          session := Some(Site(worker, id));
        }
      }
    }

    /** A successful kill ends the session; a failed one leaves it to itself. */
    method KillSession(session: Site) returns (ok: bool, ghost steps: seq<Action>)
      modifies this`live, this`exits, this`requests
      ensures Spontaneous(steps) && Legal([], old(Bare()), steps)
      ensures var w := After(old(Bare()), steps);
              live == (if ok then w.live - {session} else w.live) && exits == w.exits
      ensures requests == old(requests) + [KillRequest(session)]
    {
      steps := Drift();
      requests := requests + [KillRequest(session)];
      ok := *;
      if ok {
        live := live - {session};
      }
    }

    /** `read_exit_code`: the file's content, no file, or no answer. */
    method ReadExitCode(site: Site) returns (r: Result<Option<int>>, ghost steps: seq<Action>)
      modifies this`live, this`exits, this`answers
      ensures Spontaneous(steps) && Legal([], old(Bare()), steps)
      ensures Bare() == After(old(Bare()), steps)
      ensures r.Ok? ==> r.value == if site in exits then Some(exits[site]) else None
      ensures answers == old(answers) + [ExitAnswer(site, r, exits)]
    {
      steps := Drift();
      var reached: bool := *;
      if reached {
        r := Ok(if site in exits then Some(exits[site]) else None);
      } else {
        r := Err("SSH status check failed");
      }
      answers := answers + [ExitAnswer(site, r, exits)];
    }

    /** `session_exists`: present, missing, or no answer. */
    method SessionExists(site: Site) returns (r: Result<bool>, ghost steps: seq<Action>)
      modifies this`live, this`exits, this`answers
      ensures Spontaneous(steps) && Legal([], old(Bare()), steps)
      ensures Bare() == After(old(Bare()), steps)
      ensures r.Ok? ==> (r.value <==> site in live)
      ensures answers == old(answers) + [SessionAnswer(site, r, live)]
    {
      steps := Drift();
      var reached: bool := *;
      if reached {
        r := Ok(site in live);
      } else {
        r := Err("tmux session check failed");
      }
      answers := answers + [SessionAnswer(site, r, live)];
    }
  }

  method AllDistinct(states: seq<GpuState>) returns (distinct: bool)
    ensures distinct <==> DistinctIndexes(states)
  {
    distinct := forall i, j | 0 <= i < j < |states| :: states[i].index != states[j].index;
  }
}
