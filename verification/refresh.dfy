/**
 * What one round of `refresh_running_tasks` does: for each running task a read of its exit file, then, if
 * there is none, a look at its session, with the workers going on before each.
 */
module Refresh {
  import opened Models
  import opened Lifecycle
  import opened Queries
  import opened Capacity
  import opened Protocol
  import opened Remote
  import opened PassOrder
  import opened Victims
  import opened WorkerHealth

  /** The two probes of a task's session, and what they showed. */
  datatype Finding = NoAnswer | Alive | Exited(code: int) | Missing

  /** The row a finding leaves: only an exit code or a confirmed missing session changes it. */
  function Reconciled(t: Task, finding: Finding, now: nat): Task {
    match finding
    case NoAnswer => t
    case Alive => t
    case Exited(code) => Finished(t, code, now)
    case Missing => if t.options.preemptible then Requeued(t) else FailedWithoutCode(t, now)
  }

  /** The session a row names is the one its worker and id determine. */
  ghost predicate OwnSite(t: Task) {
    t.worker.Some? && t.session == Some(Site(t.worker.value, t.id))
  }

  /** A listed row as the round begins. */
  ghost predicate RunningRow(start: TaskTable, t: Task) {
    t.id in start && start[t.id] == t && t.status == Running && OwnSite(t)
  }

  lemma {:induction false} RunningRows(tasks: TaskTable, running: seq<Task>)
    requires RowsInvariant(tasks) && Lists(running, tasks, WithStatus(tasks, Running))
    ensures forall k | 0 <= k < |running| :: RunningRow(tasks, running[k])
  {
    forall k | 0 <= k < |running|
      ensures RunningRow(tasks, running[k])
    {
      assert RowInvariant(tasks[running[k].id]);
    }
  }

  lemma {:induction false} RunningRowMeans(start: TaskTable, t: Task)
    requires RunningRow(start, t)
    ensures t.id in start && start[t.id] == t && t.status == Running && OwnSite(t) && t.worker.Some?
  {
  }

  lemma {:induction false} ReconciledKeepsId(t: Task, finding: Finding, now: nat)
    ensures Reconciled(t, finding, now).id == t.id
  {
  }

  // ----- one task's turn -----

  /** The same tables after the workers took these steps. */
  ghost function Meanwhile(w: World, drift: seq<Action>): World {
    World(w.tasks, Drifted(w, drift).live, Drifted(w, drift).exits)
  }

  lemma {:induction false} NoDrift(w: World)
    ensures Drift(w, []) && Meanwhile(w, []) == w
  {
  }

  /** What the workers did before each of the two questions, what they answered, and what was concluded. */
  datatype Turn = Turn(
    before: World,
    id: TaskId,
    finding: Finding,
    first: seq<Action>,
    second: seq<Action>,
    answers: seq<Answer>,
    probes: seq<Probe>)

  ghost function AtFirst(turn: Turn): World {
    Meanwhile(turn.before, turn.first)
  }

  ghost function AtSecond(turn: Turn): World {
    Meanwhile(AtFirst(turn), turn.second)
  }

  function Closing(turn: Turn, at: nat): seq<Action> {
    match turn.finding
    case Exited(_) => [Finish(turn.id, at)]
    case Missing => [Lose(turn.id, at)]
    case _ => []
  }

  function TurnSteps(turn: Turn, at: nat): seq<Action> {
    turn.first + turn.second + Closing(turn, at)
  }

  ghost function AfterTurn(turn: Turn, t: Task, at: nat): World {
    World(turn.before.tasks[t.id := Reconciled(t, turn.finding, at)], AtSecond(turn).live, AtSecond(turn).exits)
  }

  /** The answers to the two questions, the second put only when the first is "no file". */
  ghost predicate AnswersMade(turn: Turn, t: Task)
    requires t.worker.Some?
  {
    var s, files, sessions := SiteOf(t), AtFirst(turn).exits, AtSecond(turn).live;
    match turn.finding
    case Exited(code) =>
      turn.answers == [ExitAnswer(s, Ok(Some(code)), files)] && s in files && files[s] == code
    case Alive =>
      turn.answers == [ExitAnswer(s, Ok(None), files), SessionAnswer(s, Ok(true), sessions)] && s !in files
        && s in sessions
    case Missing =>
      turn.answers == [ExitAnswer(s, Ok(None), files), SessionAnswer(s, Ok(false), sessions)] && s !in files
        && s !in sessions
    case NoAnswer =>
      if turn.probes == [Probe(t.worker.value, false)] then exists e :: turn.answers == [ExitAnswer(s, Err(e), files)]
      else s !in files && exists e ::
        turn.answers == [ExitAnswer(s, Ok(None), files), SessionAnswer(s, Err(e), sessions)]
  }

  /** The worker probes that a finding records. */
  ghost predicate ProbesOf(finding: Finding, w: WorkerName, probes: seq<Probe>) {
    if finding.NoAnswer? then probes == [Probe(w, false)] || probes == [Probe(w, true), Probe(w, false)]
    else probes == [Probe(w, true)]
  }

  ghost predicate TurnMade(turn: Turn, t: Task)
    requires t.worker.Some?
  {
    && turn.id == t.id && t.id in turn.before.tasks && turn.before.tasks[t.id] == t
    && Drift(turn.before, turn.first) && Drift(AtFirst(turn), turn.second)
    && (|turn.answers| == 1 ==> turn.second == [])
    && ProbesOf(turn.finding, t.worker.value, turn.probes)
    && AnswersMade(turn, t)
  }

  lemma {:induction false} TurnKillsNothing(turn: Turn, t: Task, at: nat)
    requires t.worker.Some? && TurnMade(turn, t)
    ensures var steps := TurnSteps(turn, at);
            Killed(steps) == {} && Started(steps) == {} && Ordered(steps)
  {
    hide AnswersMade, ProbesOf, Killed, Started, Ordered;
    SpontaneousKillsNothing(turn.first);
    SpontaneousKillsNothing(turn.second);
    NoSteps();
    OneStep(Finish(turn.id, at));
    OneStep(Lose(turn.id, at));
    Concatenated(turn.first, turn.second);
    Concatenated(turn.first + turn.second, Closing(turn, at));
  }

  // ----- what a turn loses -----

  ghost predicate ExitsIn(drift: seq<Action>, s: Site) {
    exists k :: 0 <= k < |drift| && drift[k].SessionExits? && drift[k].site == s
  }

  /** Exit files only come from sessions that exit. */
  lemma {:induction false} DriftWritesExactly(w: World, drift: seq<Action>, s: Site)
    requires Spontaneous(drift) && s !in w.exits
    ensures s in After(w, drift).exits <==> ExitsIn(drift, s)
  {
    if drift != [] {
      var n := |drift| - 1;
      DriftWritesExactly(w, drift[..n], s);
      if ExitsIn(drift[..n], s) {
        var k :| 0 <= k < n && drift[..n][k].SessionExits? && drift[..n][k].site == s;
        assert drift[k] == drift[..n][k];
        DriftKeepsFile(w, drift, k, s);
      }
      if ExitsIn(drift, s) {
        var k :| 0 <= k < |drift| && drift[k].SessionExits? && drift[k].site == s;
        assert k < n ==> drift[..n][k] == drift[k];
      }
    }
  }

  lemma {:induction false} DriftKeepsFile(w: World, drift: seq<Action>, k: nat, s: Site)
    requires Spontaneous(drift) && k < |drift| && drift[k].SessionExits? && drift[k].site == s
    ensures s in After(w, drift).exits
    decreases |drift|
  {
    var n := |drift| - 1;
    if k < n {
      assert drift[..n][k] == drift[k];
      DriftKeepsFile(w, drift[..n], k, s);
    }
  }

  /**
   * A task that is taken for lost leaves an exit code unread if and only if its session exited between the
   * read of the exit file and the look at the session.
   */
  lemma {:induction false} LossDiscardsExactly(turn: Turn, t: Task, at: nat)
    requires t.worker.Some? && TurnMade(turn, t)
    requires turn.finding.Missing?
    ensures SiteOf(t) in AfterTurn(turn, t, at).exits <==> ExitsIn(turn.second, SiteOf(t))
    ensures AfterTurn(turn, t, at).tasks[t.id] == if t.options.preemptible then Requeued(t)
            else FailedWithoutCode(t, at)
  {
    var w := AtFirst(turn);
    DriftWritesExactly(World(map[], w.live, w.exits), turn.second, SiteOf(t));
  }

  /** A code on file at the first question is always used, if the worker answers. */
  lemma {:induction false} CodeSeenIsUsed(turn: Turn, t: Task)
    requires t.worker.Some? && TurnMade(turn, t)
    requires SiteOf(t) in AtFirst(turn).exits && Probe(t.worker.value, true) in turn.probes
    ensures turn.finding == Exited(AtFirst(turn).exits[SiteOf(t)])
  {
  }

  // ----- the round -----

  /** After a worker failed to answer, it is not asked again. */
  ghost predicate StopsAtFailure(probes: seq<Probe>) {
    forall i, j | 0 <= i < j < |probes| && probes[i].worker == probes[j].worker :: probes[i].reachable
  }

  ghost predicate FailedWorkers(probes: seq<Probe>, failed: set<WorkerName>) {
    forall w :: w in failed <==> Probe(w, false) in probes
  }

  lemma {:induction false} ProbesContinue(probes: seq<Probe>, failed: set<WorkerName>, finding: Finding, w: WorkerName,
                                          more: seq<Probe>)
    requires StopsAtFailure(probes) && FailedWorkers(probes, failed)
    requires w !in failed && ProbesOf(finding, w, more)
    ensures StopsAtFailure(probes + more)
    ensures FailedWorkers(probes + more, if finding.NoAnswer? then failed + {w} else failed)
    ensures !finding.NoAnswer? ==> Probe(w, true) in probes + more
  {
    var all := probes + more;
    forall i, j | 0 <= i < j < |all| && all[i].worker == all[j].worker
      ensures all[i].reachable
    {
      if i < |probes| <= j {
        assert all[j].worker == w;
        assert all[i] in probes;
      }
    }
    forall x
      ensures Probe(x, false) in all <==> Probe(x, false) in probes || Probe(x, false) in more
    {
    }
  }

  /** Each row is as it was, or was running on a worker that answered and is reconciled with what it said. */
  ghost predicate Refreshed(start: TaskTable, now: TaskTable, steps: seq<Action>, probes: seq<Probe>, at: nat) {
    && now.Keys == start.Keys
    && forall t | t in start && now[t] != start[t] :: Explained(start[t], now[t], t, steps, probes, at)
  }

  ghost predicate Explained(before: Task, after: Task, id: TaskId, steps: seq<Action>, probes: seq<Probe>, at: nat) {
    && before.status == Running && before.worker.Some? && Probe(before.worker.value, true) in probes
    && exists finding: Finding ::
         && after == Reconciled(before, finding, at)
         && (finding.Exited? ==> Finish(id, at) in steps)
         && (finding.Missing? ==> Lose(id, at) in steps)
  }

  lemma {:induction false} RefreshBegins(start: TaskTable, at: nat)
    ensures Refreshed(start, start, [], [], at)
    ensures StopsAtFailure([]) && FailedWorkers([], {})
  {
  }

  lemma {:induction false} RefreshContinues(start: TaskTable, turn: Turn, t: Task, steps: seq<Action>,
                                            probes: seq<Probe>, at: nat)
    requires t.worker.Some? && TurnMade(turn, t)
    requires Refreshed(start, turn.before.tasks, steps, probes, at)
    requires t.id in start && start[t.id] == t && t.status == Running
    ensures Refreshed(start, AfterTurn(turn, t, at).tasks, steps + TurnSteps(turn, at), probes + turn.probes, at)
  {
    hide AnswersMade, Drift, Drifted;
    var before, after, more := turn.before.tasks, AfterTurn(turn, t, at).tasks, TurnSteps(turn, at);
    assert turn.finding.Exited? || turn.finding.Missing? ==> Closing(turn, at)[0] in more;
    forall u | u in start && after[u] != start[u]
      ensures Explained(start[u], after[u], u, steps + more, probes + turn.probes, at)
    {
      if u == t.id {
        assert turn.probes[0] in probes + turn.probes;
        assert after[u] == Reconciled(start[u], turn.finding, at);
      } else {
        assert Explained(start[u], before[u], u, steps, probes, at);
        var f :| && before[u] == Reconciled(start[u], f, at)
                 && (f.Exited? ==> Finish(u, at) in steps)
                 && (f.Missing? ==> Lose(u, at) in steps);
      }
    }
  }

  /** One more turn keeps what the round has established so far. */
  lemma {:induction false} RoundGoesOn(start: TaskTable, turn: Turn, t: Task, steps: seq<Action>, probes: seq<Probe>,
                                       failed: set<WorkerName>, at: nat)
    requires t.worker.Some? && TurnMade(turn, t)
    requires Refreshed(start, turn.before.tasks, steps, probes, at)
    requires t.id in start && start[t.id] == t && t.status == Running
    requires StopsAtFailure(probes) && FailedWorkers(probes, failed) && t.worker.value !in failed
    requires Killed(steps) == {} && Started(steps) == {}
    ensures Refreshed(start, AfterTurn(turn, t, at).tasks, steps + TurnSteps(turn, at), probes + turn.probes, at)
    ensures StopsAtFailure(probes + turn.probes)
    ensures FailedWorkers(probes + turn.probes, if turn.finding.NoAnswer? then failed + {t.worker.value} else failed)
    ensures Killed(steps + TurnSteps(turn, at)) == {} && Started(steps + TurnSteps(turn, at)) == {}
    ensures AfterTurn(turn, t, at).tasks == turn.before.tasks[t.id := AfterTurn(turn, t, at).tasks[t.id]]
    ensures AfterTurn(turn, t, at).tasks[t.id].id == t.id
  {
    hide Refreshed, StopsAtFailure, FailedWorkers, Killed, Started, Ordered, AnswersMade, TurnSteps;
    RefreshContinues(start, turn, t, steps, probes, at);
    ProbesContinue(probes, failed, turn.finding, t.worker.value, turn.probes);
    TurnKillsNothing(turn, t, at);
    Concatenated(steps, TurnSteps(turn, at));
    ReconciledKeepsId(t, turn.finding, at);
  }

  ghost function RoundProbes(trace: seq<Turn>): seq<Probe> {
    if trace == [] then [] else RoundProbes(trace[..|trace| - 1]) + trace[|trace| - 1].probes
  }

  ghost function RoundAnswers(trace: seq<Turn>): seq<Answer> {
    if trace == [] then [] else RoundAnswers(trace[..|trace| - 1]) + trace[|trace| - 1].answers
  }

  ghost function RoundSteps(trace: seq<Turn>, at: nat): seq<Action> {
    if trace == [] then [] else RoundSteps(trace[..|trace| - 1], at) + TurnSteps(trace[|trace| - 1], at)
  }

  /** A row is inspected unless its worker is gone or failed to answer earlier in the round. */
  ghost predicate Inspects(workers: seq<WorkerConfig>, t: Task, earlier: seq<Probe>) {
    t.worker.Some? && WorkerNamed(workers, t.worker.value).Some? && Probe(t.worker.value, false) !in earlier
  }

  /** The listed rows in order: every one that is to be inspected has its turn, where the one before it ended. */
  ghost predicate Reconciles(workers: seq<WorkerConfig>, start: World, listed: seq<Task>, trace: seq<Turn>, now: World,
                             at: nat)
    decreases |listed|, |trace|
  {
    if listed == [] then trace == [] && now == start
    else
      var earlier, t := listed[..|listed| - 1], listed[|listed| - 1];
      || (!Inspects(workers, t, RoundProbes(trace)) && Reconciles(workers, start, earlier, trace, now, at))
      || (trace != [] &&
          var turn, before := trace[|trace| - 1], trace[..|trace| - 1];
          && Inspects(workers, t, RoundProbes(before))
          && Reconciles(workers, start, earlier, before, turn.before, at)
          && TurnMade(turn, t)
          && now == AfterTurn(turn, t, at))
  }

  lemma {:induction false} ReconcilesBegins(workers: seq<WorkerConfig>, start: World, listed: seq<Task>, at: nat)
    ensures Reconciles(workers, start, listed[..0], [], start, at)
    ensures RoundProbes([]) == [] && RoundAnswers([]) == [] && RoundSteps([], at) == []
    ensures listed[..|listed|] == listed
  {
  }

  lemma {:induction false} ReconcilesNext(workers: seq<WorkerConfig>, start: World, listed: seq<Task>, i: nat,
                                          trace: seq<Turn>, turn: Turn, at: nat)
    requires i < |listed| && Reconciles(workers, start, listed[..i], trace, turn.before, at)
    requires Inspects(workers, listed[i], RoundProbes(trace)) && TurnMade(turn, listed[i])
    ensures Reconciles(workers, start, listed[..i + 1], trace + [turn], AfterTurn(turn, listed[i], at), at)
    ensures RoundProbes(trace + [turn]) == RoundProbes(trace) + turn.probes
    ensures RoundAnswers(trace + [turn]) == RoundAnswers(trace) + turn.answers
    ensures RoundSteps(trace + [turn], at) == RoundSteps(trace, at) + TurnSteps(turn, at)
  {
    hide Inspects, TurnMade, TurnSteps;
    assert listed[..i + 1][..i] == listed[..i];
    assert (trace + [turn])[..|trace|] == trace;
  }

  lemma {:induction false} ReconcilesSkip(workers: seq<WorkerConfig>, start: World, listed: seq<Task>, i: nat,
                                          trace: seq<Turn>,
                                          now: World, at: nat)
    requires i < |listed| && Reconciles(workers, start, listed[..i], trace, now, at)
    requires !Inspects(workers, listed[i], RoundProbes(trace))
    ensures Reconciles(workers, start, listed[..i + 1], trace, now, at)
  {
    hide Inspects, TurnMade;
    assert listed[..i + 1][..i] == listed[..i];
  }

  lemma {:induction false} InspectsExactly(workers: seq<WorkerConfig>, t: Task, probes: seq<Probe>,
                                           failed: set<WorkerName>)
    requires FailedWorkers(probes, failed) && t.worker.Some?
    ensures Inspects(workers, t, probes) <==> WorkerNamed(workers, t.worker.value).Some? && t.worker.value !in failed
  {
  }

  /** Every turn of a round is one of the listed rows'. */
  lemma {:induction false} TurnOf(workers: seq<WorkerConfig>, start: World, listed: seq<Task>, trace: seq<Turn>,
                                  now: World, at: nat, k: nat)
    returns (t: Task)
    requires Reconciles(workers, start, listed, trace, now, at) && k < |trace|
    ensures t in listed && t.worker.Some? && TurnMade(trace[k], t)
    decreases |listed|
  {
    hide TurnMade, AfterTurn;
    var n := |listed| - 1;
    assert forall u | u in listed[..n] :: u in listed;
    if !Inspects(workers, listed[n], RoundProbes(trace)) && Reconciles(workers, start, listed[..n], trace, now, at) {
      t := TurnOf(workers, start, listed[..n], trace, now, at, k);
    } else if k < |trace| - 1 {
      t := TurnOf(workers, start, listed[..n], trace[..|trace| - 1], trace[|trace| - 1].before, at, k);
    } else {
      t := listed[n];
    }
  }

  /**
   * Over a whole round: a task taken for lost leaves an exit code unread if and only if its session exited
   * between the two questions of its turn; a code on file at the first question is never missed.
   */
  lemma {:induction false} RoundLosesExactly(workers: seq<WorkerConfig>, start: World, listed: seq<Task>,
                                             trace: seq<Turn>, now: World, at: nat, k: nat)
    returns (t: Task)
    requires Reconciles(workers, start, listed, trace, now, at) && k < |trace|
    requires trace[k].finding.Missing?
    ensures t in listed && t.id == trace[k].id
    ensures SiteOf(t) !in AtFirst(trace[k]).exits
    ensures SiteOf(t) in AfterTurn(trace[k], t, at).exits <==> ExitsIn(trace[k].second, SiteOf(t))
  {
    t := TurnOf(workers, start, listed, trace, now, at, k);
    LossDiscardsExactly(trace[k], t, at);
  }
}
