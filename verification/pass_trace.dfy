/** What each turn of a dispatch pass looked at, decided, asked of the workers and left in the table. */
module PassTrace {
  import opened Models
  import opened Lifecycle
  import opened Queries
  import opened Capacity
  import opened GpuConditions
  import opened Placement
  import opened Victims
  import opened Elastic
  import opened Protocol
  import opened Remote
  import opened PassOrder
  import opened DispatchEffects
  import opened DispatchPass
  import opened ElasticPhases

  // ----- regular attempts -----

  /** One attempt: the route to its plan, the victims it released, and a launch if there is a plan. */
  ghost predicate AttemptMade(a: Attempt, after: TaskTable, at: nat) {
    var before := a.search.before.tasks;
    && KeyedById(before) && a.id in before && a.search.options == before[a.id].options
    && Routed(a.search, a.route, a.plan, a.killed)
    && a.search.now.tasks == Released(before, a.killed)
    && (a.started ==> a.plan.Some?)
    && (exists asked :: Asked(a.search, a.route, a.plan, asked) && a.requests == asked + Launch(a.plan, a.id))
    && after == if a.started then a.search.now.tasks[a.id := StartedRow(before[a.id], a.plan.value, at)]
       else a.search.now.tasks
  }

  ghost function Launch(plan: Option<DispatchPlan>, id: TaskId): seq<Request> {
    if plan.Some? then [LaunchRequest(Site(plan.value.worker.name, id))] else []
  }

  ghost function AttemptIds(trace: seq<Attempt>): seq<TaskId> {
    if trace == [] then [] else AttemptIds(trace[..|trace| - 1]) + [trace[|trace| - 1].id]
  }

  ghost function LatestStates(states: WorkerStates, trace: seq<Attempt>): WorkerStates {
    if trace == [] then states else trace[|trace| - 1].search.refreshed
  }

  ghost function AttemptRequests(trace: seq<Attempt>): seq<Request> {
    if trace == [] then [] else AttemptRequests(trace[..|trace| - 1]) + trace[|trace| - 1].requests
  }

  /** The probes that followed the preemptions, in order. */
  ghost function AttemptLooks(trace: seq<Attempt>): seq<Look> {
    if trace == [] then []
    else AttemptLooks(trace[..|trace| - 1]) + LooksOf(trace[|trace| - 1].search, trace[|trace| - 1].route)
  }

  /**
   * Each attempt takes the first regular task of the queue as the earlier ones left it, and looks at what
   * was observed until then; after a preemption, at what the probe that followed added.
   */
  ghost predicate Attempts(s: Setting, n: Notes, probed: seq<GpuCondition>, states: WorkerStates, start: TaskTable,
                           trace: seq<Attempt>, now: TaskTable)
  {
    if trace == [] then now == start
    else
      var a, earlier := trace[|trace| - 1], trace[..|trace| - 1];
      && Attempts(s, n, probed, states, start, earlier, a.search.before.tasks)
      && a.search.workers == s.workers && a.search.states == LatestStates(states, earlier)
      && SeenIn(a.search.before, s, Noted(n, probed, s.at, AttemptLooks(earlier)))
      && SeenIn(a.search.now, s, Noted(n, probed, s.at, AttemptLooks(trace)))
      && NextInQueue(a.search.before.tasks, Elements(AttemptIds(earlier)), a.id)
      && AttemptMade(a, now, s.at)
  }

  lemma {:induction false} AttemptsContinue(s: Setting, n: Notes, probed: seq<GpuCondition>, states: WorkerStates,
                                            start: TaskTable, trace: seq<Attempt>, a: Attempt, now: TaskTable)
    requires Attempts(s, n, probed, states, start, trace, a.search.before.tasks)
    requires a.search.workers == s.workers && a.search.states == LatestStates(states, trace)
    requires var seen := Noted(n, probed, s.at, AttemptLooks(trace));
             && SeenIn(a.search.before, s, seen)
             && SeenIn(a.search.now, s, Noted(seen, probed, s.at, LooksOf(a.search, a.route)))
    requires NextInQueue(a.search.before.tasks, Elements(AttemptIds(trace)), a.id)
    requires AttemptMade(a, now, s.at)
    ensures Attempts(s, n, probed, states, start, trace + [a], now)
    ensures AttemptIds(trace + [a]) == AttemptIds(trace) + [a.id]
    ensures AttemptRequests(trace + [a]) == AttemptRequests(trace) + a.requests
    ensures LatestStates(states, trace + [a]) == a.search.refreshed
    ensures Noted(n, probed, s.at, AttemptLooks(trace + [a])) ==
            Noted(Noted(n, probed, s.at, AttemptLooks(trace)), probed, s.at, LooksOf(a.search, a.route))
  {
    hide AttemptMade, NextInQueue, SeenIn, LooksOf, Noted;
    assert (trace + [a])[..|trace|] == trace;
    NotedTwice(n, probed, s.at, AttemptLooks(trace), LooksOf(a.search, a.route));
  }

  lemma {:induction false} NoAttempts(s: Setting, n: Notes, probed: seq<GpuCondition>, states: WorkerStates,
                                      start: TaskTable)
    ensures Attempts(s, n, probed, states, start, [], start)
    ensures AttemptIds([]) == [] && AttemptRequests([]) == [] && LatestStates(states, []) == states
    ensures AttemptLooks([]) == [] && Noted(n, probed, s.at, []) == n
  {
  }

  // ----- elastic resizes -----

  datatype Resizing = Resizing(id: TaskId, before: View, worker: Option<WorkerConfig>, decision: Resize, killed: bool,
    started: bool)

  /** What a resize asks of the worker: nothing to keep, a kill to suspend, and a launch once a kill succeeded. */
  ghost function ResizeRequests(r: Resizing): seq<Request> {
    if r.decision.Keep? || r.id !in r.before.tasks then []
    else [KillRequest(SiteOf(r.before.tasks[r.id]))] +
         if r.killed && r.decision.Restart? && r.worker.Some? then [LaunchRequest(Site(r.worker.value.name, r.id))]
           else []
  }

  ghost function ResizesRequests(trace: seq<Resizing>): seq<Request> {
    if trace == [] then [] else ResizesRequests(trace[..|trace| - 1]) + ResizeRequests(trace[|trace| - 1])
  }

  ghost predicate ResizeMade(r: Resizing, workers: seq<WorkerConfig>, states: WorkerStates, after: TaskTable, at: nat) {
    && r.id in r.before.tasks && IsElastic(r.before.tasks[r.id])
    && var task := r.before.tasks[r.id];
    && (if Resizable(workers, states, task)
        then r.worker == WorkerNamed(workers, task.worker.value) && r.worker.Some?
             && Decision(SituationOf(r.before, r.worker.value, states, task), r.decision)
        else r.worker.None? && r.decision.Keep?)
    && (r.killed ==> !r.decision.Keep?) && (r.started ==> r.killed && r.decision.Restart?)
    && after == if !r.killed then r.before.tasks
                else if !r.started then Released(r.before.tasks, {r.id})
                else Released(r.before.tasks,
                  {r.id})[r.id := StartedRow(Requeued(task), DispatchPlan(r.worker.value, r.decision.gpus), at)]
  }

  /** The elastic rows, in the order in which they were listed, each on the table the previous ones left. */
  ghost predicate Resizes(s: Setting, n: Notes, states: WorkerStates, start: TaskTable, listed: seq<Task>,
                          trace: seq<Resizing>, now: TaskTable)
    decreases |listed|
  {
    if listed == [] then trace == [] && now == start
    else
      var earlier, task := listed[..|listed| - 1], listed[|listed| - 1];
      if !IsElastic(task) then Resizes(s, n, states, start, earlier, trace, now)
      else
        trace != [] &&
        var r := trace[|trace| - 1];
        && r.id == task.id
        && Resizes(s, n, states, start, earlier, trace[..|trace| - 1], r.before.tasks)
        && SeenIn(r.before, s, n)
        && ResizeMade(r, s.workers, states, now, s.at)
  }

  lemma {:induction false} ResizesContinue(s: Setting, n: Notes, states: WorkerStates, start: TaskTable,
                                           listed: seq<Task>, i: nat, trace: seq<Resizing>, r: Resizing,
                                           now: TaskTable)
    requires i < |listed| && IsElastic(listed[i]) && r.id == listed[i].id
    requires Resizes(s, n, states, start, listed[..i], trace, r.before.tasks)
    requires SeenIn(r.before, s, n) && ResizeMade(r, s.workers, states, now, s.at)
    ensures Resizes(s, n, states, start, listed[..i + 1], trace + [r], now)
    ensures ResizesRequests(trace + [r]) == ResizesRequests(trace) + ResizeRequests(r)
  {
    hide ResizeMade, SeenIn;
    assert listed[..i + 1][..i] == listed[..i];
    assert (trace + [r])[..|trace|] == trace;
  }

  lemma {:induction false} ResizesSkip(s: Setting, n: Notes, states: WorkerStates, start: TaskTable,
                                       listed: seq<Task>, i: nat, trace: seq<Resizing>, now: TaskTable)
    requires i < |listed| && !IsElastic(listed[i])
    requires Resizes(s, n, states, start, listed[..i], trace, now)
    ensures Resizes(s, n, states, start, listed[..i + 1], trace, now)
  {
    assert listed[..i + 1][..i] == listed[..i];
  }

  // ----- background starts -----

  datatype Offer = Offer(id: TaskId, before: View, plan: Option<DispatchPlan>, held: bool, started: bool)

  /** A launch is requested for every plan that is not held back. */
  ghost function OfferRequests(o: Offer): seq<Request> {
    if o.plan.Some? && !o.held then [LaunchRequest(Site(o.plan.value.worker.name, o.id))] else []
  }

  ghost function OffersRequests(trace: seq<Offer>): seq<Request> {
    if trace == [] then [] else OffersRequests(trace[..|trace| - 1]) + OfferRequests(trace[|trace| - 1])
  }

  /** The best plan, held back exactly if a waiting regular task of higher priority may use its worker. */
  ghost predicate OfferMade(o: Offer, workers: seq<WorkerConfig>, states: WorkerStates, after: TaskTable, at: nat) {
    && o.id in o.before.tasks
    && var task := o.before.tasks[o.id];
    && BestPlan(workers, o.before, task.options, states, o.plan)
    && (o.held <==> o.plan.Some? && exists t ::
       t in o.before.tasks && Blocks(o.before.tasks[t], o.plan.value.worker, task))
    && (o.started ==> o.plan.Some? && !o.held)
    && after == if o.started then o.before.tasks[o.id := StartedRow(task, o.plan.value, at)] else o.before.tasks
  }

  /** The background rows of the queue window, in its order. */
  ghost predicate Offers(s: Setting, n: Notes, states: WorkerStates, start: TaskTable, listed: seq<Task>,
                         trace: seq<Offer>, now: TaskTable)
    decreases |listed|
  {
    if listed == [] then trace == [] && now == start
    else
      var earlier, task := listed[..|listed| - 1], listed[|listed| - 1];
      if !task.options.background then Offers(s, n, states, start, earlier, trace, now)
      else
        trace != [] &&
        var o := trace[|trace| - 1];
        && o.id == task.id
        && Offers(s, n, states, start, earlier, trace[..|trace| - 1], o.before.tasks)
        && SeenIn(o.before, s, n)
        && OfferMade(o, s.workers, states, now, s.at)
  }

  lemma {:induction false} OffersContinue(s: Setting, n: Notes, states: WorkerStates, start: TaskTable,
                                          listed: seq<Task>, i: nat, trace: seq<Offer>, o: Offer, now: TaskTable)
    requires i < |listed| && listed[i].options.background && o.id == listed[i].id
    requires Offers(s, n, states, start, listed[..i], trace, o.before.tasks)
    requires SeenIn(o.before, s, n) && OfferMade(o, s.workers, states, now, s.at)
    ensures Offers(s, n, states, start, listed[..i + 1], trace + [o], now)
    ensures OffersRequests(trace + [o]) == OffersRequests(trace) + OfferRequests(o)
  {
    hide OfferMade, SeenIn;
    assert listed[..i + 1][..i] == listed[..i];
    assert (trace + [o])[..|trace|] == trace;
  }

  lemma {:induction false} OffersSkip(s: Setting, n: Notes, states: WorkerStates, start: TaskTable,
                                      listed: seq<Task>, i: nat, trace: seq<Offer>, now: TaskTable)
    requires i < |listed| && !listed[i].options.background
    requires Offers(s, n, states, start, listed[..i], trace, now)
    ensures Offers(s, n, states, start, listed[..i + 1], trace, now)
  {
    assert listed[..i + 1][..i] == listed[..i];
  }

  /** Nothing walked yet. */
  lemma {:induction false} WalksBegin(s: Setting, n: Notes, states: WorkerStates, start: TaskTable,
                                      listed: seq<Task>)
    ensures Resizes(s, n, states, start, listed[..0], [], start)
    ensures Offers(s, n, states, start, listed[..0], [], start)
    ensures ResizesRequests([]) == [] && OffersRequests([]) == []
    ensures listed[..|listed|] == listed
  {
  }

  /** The background walk after `i` listed rows, on top of what the pass did earlier. */
  datatype Walk = Walk(
    setting: Setting,
    notes: Notes,
    states: WorkerStates,
    start: TaskTable,
    attempts: seq<TaskId>,
    earlier: seq<Action>,
    begun: TaskTable,
    listed: seq<Task>)

  ghost predicate Walked(w: Walk, i: nat, trace: seq<Offer>, now: TaskTable, steps: seq<Action>)
    requires i <= |w.listed|
  {
    && KeyedById(w.begun) && QueueWindow(w.begun, w.listed)
    && WholePass(w.start, now, w.attempts, w.earlier + steps)
    && StillListed(now, w.listed, i)
    && QueueShrinks(w.begun, now)
    && Offers(w.setting, w.notes, w.states, w.begun, w.listed[..i], trace, now)
    && Killed(steps) == {}
  }

  lemma {:induction false} WalkBegins(w: Walk)
    requires KeyedById(w.begun) && QueueWindow(w.begun, w.listed)
    requires WholePass(w.start, w.begun, w.attempts, w.earlier)
    ensures Walked(w, 0, [], w.begun, []) && OffersRequests([]) == []
  {
    hide WholePass;
    NoSteps();
    BackgroundBegins(w.begun, w.listed, w.earlier);
    QueueShrinksMore(w.begun, w.begun, w.begun, 0);
    WalksBegin(w.setting, w.notes, w.states, w.begun, w.listed);
  }

  /** What the next row of the walk is known to be. */
  lemma {:induction false} WalkNext(w: Walk, i: nat, trace: seq<Offer>, now: TaskTable, steps: seq<Action>)
    requires i < |w.listed| && Walked(w, i, trace, now, steps)
    ensures var t := w.listed[i];
            && KeyedById(now) && t.id in now && now[t.id] == t && t.status == Queued
            && InWindow(now, t)
  {
    hide WholePass, Offers, InWindow;
    ListedNext(now, w.listed, i);
    ListedIsInWindow(w.begun, now, w.listed, i);
  }

  lemma {:induction false} OfferKeepsPass(w: Walk, o: Offer, now: TaskTable, after: TaskTable,
                                          steps: seq<Action>, more: seq<Action>)
    requires WholePass(w.start, now, w.attempts, w.earlier + steps) && Killed(steps) == {}
    requires KeyedById(now) && o.id in now && now[o.id].status == Queued && now[o.id].options.background
    requires o.before.tasks == now && OfferMade(o, w.setting.workers, w.states, after, w.setting.at)
    requires Started(more) == (if o.started then {o.id} else {}) && Killed(more) == {} && Ordered(more)
    ensures WholePass(w.start, after, w.attempts, w.earlier + (steps + more)) && Killed(steps + more) == {}
  {
    hide WholePass, OfferMade, Killed, Started, Ordered;
    OfferedRow(o, w.setting.workers, w.states, now, after, w.setting.at);
    BackgroundKeepsPass(w.start, now, after, w.attempts, o.id, w.earlier + steps, more);
    Concatenated(steps, more);
    assert w.earlier + steps + more == w.earlier + (steps + more);
  }

  lemma {:induction false} WalkGoesOn(w: Walk, i: nat, trace: seq<Offer>, o: Offer, now: TaskTable, after: TaskTable,
                                      steps: seq<Action>, more: seq<Action>)
    requires i < |w.listed| && Walked(w, i, trace, now, steps)
    requires w.listed[i].options.background && o.id == w.listed[i].id && o.before.tasks == now
    requires SeenIn(o.before, w.setting, w.notes) && OfferMade(o, w.setting.workers, w.states, after, w.setting.at)
    requires Started(more) == (if o.started then {o.id} else {}) && Killed(more) == {} && Ordered(more)
    ensures Walked(w, i + 1, trace + [o], after, steps + more)
    ensures OffersRequests(trace + [o]) == OffersRequests(trace) + OfferRequests(o)
  {
    WalkNext(w, i, trace, now, steps);
    hide WholePass, OfferMade, QueueShrinks, QueueWindow, StillListed, Offers, Killed, Started, Ordered, InWindow;
    hide OffersRequests, OfferRequests, KeyedById, SameTask, Leaves, SeenIn;
    OfferKeepsPass(w, o, now, after, steps, more);
    OfferedRow(o, w.setting.workers, w.states, now, after, w.setting.at);
    QueueShrinksMore(w.begun, now, after, o.id);
    ListedAfter(now, after, w.listed, i);
    OffersContinue(w.setting, w.notes, w.states, w.begun, w.listed, i, trace, o, after);
  }

  lemma {:induction false} WalkSkips(w: Walk, i: nat, trace: seq<Offer>, now: TaskTable, steps: seq<Action>)
    requires i < |w.listed| && Walked(w, i, trace, now, steps)
    requires !w.listed[i].options.background
    ensures Walked(w, i + 1, trace, now, steps)
  {
    hide WholePass, QueueShrinks, QueueWindow, StillListed, Offers, Killed;
    ListedNext(now, w.listed, i);
    OffersSkip(w.setting, w.notes, w.states, w.begun, w.listed, i, trace, now);
  }

  lemma {:induction false} WalkEnds(w: Walk, trace: seq<Offer>, now: TaskTable, steps: seq<Action>)
    requires Walked(w, |w.listed|, trace, now, steps)
    ensures WholePass(w.start, now, w.attempts, w.earlier + steps) && Killed(steps) == {}
    ensures Offers(w.setting, w.notes, w.states, w.begun, w.listed, trace, now)
  {
    assert w.listed[..|w.listed|] == w.listed;
  }

  // ----- the pass -----

  /** The listings and probes a pass begins with, its three walks, and the tables and listings between them. */
  datatype PassRecord = PassRecord(
    waiting: seq<Task>,
    busy: seq<Task>,
    probed: seq<GpuCondition>,
    states: WorkerStates,
    attempts: seq<Attempt>,
    refreshed: WorkerStates,
    attempted: TaskTable,
    running: seq<Task>,
    resizes: seq<Resizing>,
    resized: TaskTable,
    queued: seq<Task>,
    offers: seq<Offer>)

  /** Every enabled worker is probed once for the conditions of the waiting and the running elastic tasks. */
  ghost predicate Probed(s: Setting, start: TaskTable, p: PassRecord) {
    && QueueWindow(start, p.waiting)
    && SortedBy(StartedKey, p.busy) && Lists(p.busy, start, WithStatus(start, Running))
    && ConditionsFor(s.daemon, p.waiting + ElasticOnly(p.busy), p.probed) && DefaultCondition(s.daemon) in p.probed
    && ValidStates(p.states) && OnlyEnabled(s.workers, p.states)
  }

  lemma {:induction false} ProbedMeans(s: Setting, start: TaskTable, p: PassRecord)
    ensures Probed(s, start, p) <==>
            && QueueWindow(start, p.waiting)
            && SortedBy(StartedKey, p.busy) && Lists(p.busy, start, WithStatus(start, Running))
            && ConditionsFor(s.daemon, p.waiting + ElasticOnly(p.busy), p.probed)
            && DefaultCondition(s.daemon) in p.probed
            && ValidStates(p.states) && OnlyEnabled(s.workers, p.states)
  {
  }

  /** All the probes of a pass: one of each enabled worker, and one after each successful preemption. */
  ghost function PassLooks(s: Setting, p: PassRecord): seq<Look> {
    Answers(s.workers, p.states) + AttemptLooks(p.attempts)
  }

  /** What is on record once the workers were probed, and once the attempts are over. */
  ghost function NotesAtFirst(s: Setting, n: Notes, p: PassRecord): Notes {
    Noted(n, p.probed, s.at, Answers(s.workers, p.states))
  }

  ghost function NotesOf(s: Setting, n: Notes, p: PassRecord): Notes {
    Noted(n, p.probed, s.at, PassLooks(s, p))
  }

  /** With an empty queue there is nothing to attempt or to offer. */
  ghost predicate PassMade(s: Setting, n: Notes, start: TaskTable, p: PassRecord, now: TaskTable) {
    var idle, seen := WithStatus(start, Queued) == {}, NotesOf(s, n, p);
    && Probed(s, start, p)
    && Attempts(s, NotesAtFirst(s, n, p), p.probed, p.states, start, p.attempts, p.attempted)
    && p.refreshed == LatestStates(p.states, p.attempts)
    && (if idle then p.attempts == [] else ReachedExactly(p.attempted, Elements(AttemptIds(p.attempts))))
    && SortedBy(StartedKey, p.running) && Lists(p.running, p.attempted, WithStatus(p.attempted, Running))
    && Resizes(s, seen, p.refreshed, p.attempted, p.running, p.resizes, p.resized)
    && (if idle then p.offers == [] && now == p.resized
        else QueueWindow(p.resized, p.queued) && Offers(s, seen, p.refreshed, p.resized, p.queued, p.offers, now))
  }

  ghost function PassRequests(p: PassRecord): seq<Request> {
    AttemptRequests(p.attempts) + ResizesRequests(p.resizes) + OffersRequests(p.offers)
  }

  /** A pass that did all its turns, and whose steps kept the order promised of a pass. */
  ghost predicate Dispatched(s: Setting, n: Notes, start: TaskTable, now: TaskTable, p: PassRecord,
                             steps: seq<Action>)
  {
    PassMade(s, n, start, p, now) && WholePass(start, now, AttemptIds(p.attempts), steps)
  }

  const NO_PASS := PassRecord([], [], [], map[], [], map[], map[], [], [], map[], [], [])

  lemma {:induction false} NoOffers()
    ensures AttemptRequests([]) == [] && ResizesRequests([]) == [] && OffersRequests([]) == []
  {
  }

  lemma {:induction false} OfferedRow(o: Offer, workers: seq<WorkerConfig>, states: WorkerStates, before: TaskTable,
                                      after: TaskTable, at: nat)
    requires OfferMade(o, workers, states, after, at) && o.before.tasks == before && KeyedById(before)
    ensures !o.started ==> after == before
    ensures o.id in after && after == before[o.id := after[o.id]] && after[o.id].id == before[o.id].id
    ensures o.started ==> SameTask(before[o.id], after[o.id]) && after[o.id].status == Running
    ensures Leaves(before, after, o.id)
  {
    hide BestPlan, Blocks;
  }

  lemma {:induction false} PassIsMade(s: Setting, n: Notes, start: TaskTable, p: PassRecord, now: TaskTable,
                                      steps: seq<Action>)
    requires Probed(s, start, p)
    requires Attempts(s, NotesAtFirst(s, n, p), p.probed, p.states, start, p.attempts, p.attempted)
    requires p.refreshed == LatestStates(p.states, p.attempts)
    requires SortedBy(StartedKey, p.running) && Lists(p.running, p.attempted, WithStatus(p.attempted, Running))
    requires Resizes(s, NotesOf(s, n, p), p.refreshed, p.attempted, p.running, p.resizes, p.resized)
    requires if WithStatus(start, Queued) == {} then p.attempts == [] && p.offers == [] && now == p.resized
             else && ReachedExactly(p.attempted, Elements(AttemptIds(p.attempts)))
                  && QueueWindow(p.resized, p.queued)
                  && Offers(s, NotesOf(s, n, p), p.refreshed, p.resized, p.queued, p.offers, now)
    requires WholePass(start, now, AttemptIds(p.attempts), steps)
    ensures Dispatched(s, n, start, now, p, steps)
    ensures PassRequests(p) == AttemptRequests(p.attempts) + ResizesRequests(p.resizes) + OffersRequests(p.offers)
  {
    hide Probed, NotesAtFirst, NotesOf, Attempts, Resizes, Offers, WholePass, SortedBy, Lists, ReachedExactly;
  }

  /** The attempts go on from the first probes. */
  lemma {:induction false} NotesJoin(s: Setting, n: Notes, p: PassRecord)
    ensures NotesOf(s, n, p) == Noted(NotesAtFirst(s, n, p), p.probed, s.at, AttemptLooks(p.attempts))
    ensures NotesAtFirst(s, n, p) == Noted(n, p.probed, s.at, Answers(s.workers, p.states))
  {
    NotedTwice(n, p.probed, s.at, Answers(s.workers, p.states), AttemptLooks(p.attempts));
  }

  lemma {:induction false} DispatchedOrderly(s: Setting, n: Notes, start: TaskTable, now: TaskTable, p: PassRecord,
                                             steps: seq<Action>)
    requires Dispatched(s, n, start, now, p, steps)
    ensures WholePass(start, now, AttemptIds(p.attempts), steps)
  {
    hide PassMade, WholePass;
  }
}
