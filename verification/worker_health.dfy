/** Outage and recovery bookkeeping: `record_worker_probe` and the two `_mark_worker_*` methods. */
module WorkerHealth {
  import opened Models

  datatype Connection = Unknown | Online | Offline

  /** A batch of task events: the worker became unreachable, or is reachable again. */
  datatype Batch = Outage(worker: WorkerName) | Recovery(worker: WorkerName)

  /** One recorded probe of a worker. */
  datatype Probe = Probe(worker: WorkerName, reachable: bool)

  type Connections = map<WorkerName, Connection>

  function Recorded(c: Connections, p: Probe): Connections {
    if p.worker in c then c[p.worker := if p.reachable then Online else Offline] else c
  }

  ghost function StateAfter(c: Connections, probes: seq<Probe>): Connections {
    if probes == [] then c else Recorded(StateAfter(c, probes[..|probes| - 1]), probes[|probes| - 1])
  }

  /** The events one probe emits, from the state it found. */
  function Emitted(c: Connections, p: Probe): seq<Batch> {
    var wasOffline := p.worker in c && c[p.worker] == Offline;
    if p.reachable && wasOffline then [Recovery(p.worker)]
    else if !p.reachable && !wasOffline then [Outage(p.worker)]
    else []
  }

  ghost function Batches(c: Connections, probes: seq<Probe>): seq<Batch> {
    if probes == [] then []
    else
      var earlier := probes[..|probes| - 1];
      Batches(c, earlier) + Emitted(StateAfter(c, earlier), probes[|probes| - 1])
  }

  ghost function BatchesOf(batches: seq<Batch>, w: WorkerName): seq<Batch> {
    if batches == [] then []
    else
      var n := |batches| - 1;
      BatchesOf(batches[..n], w) + if batches[n].worker == w then [batches[n]] else []
  }

  lemma {:induction false} BatchesOfSplits(a: seq<Batch>, b: seq<Batch>, w: WorkerName)
    ensures BatchesOf(a + b, w) == BatchesOf(a, w) + BatchesOf(b, w)
  {
    if b == [] {
      assert a + b == a;
    } else {
      assert (a + b)[..|a + b| - 1] == a + b[..|b| - 1];
      BatchesOfSplits(a, b[..|b| - 1], w);
    }
  }

  ghost predicate OutageOpen(batches: seq<Batch>) {
    batches != [] && batches[|batches| - 1].Outage?
  }

  /** Outage first, then recovery, then outage again. */
  ghost predicate Alternates(batches: seq<Batch>) {
    batches == [] ||
    (var earlier := batches[..|batches| - 1];
     Alternates(earlier) && (batches[|batches| - 1].Outage? <==> !OutageOpen(earlier)))
  }

  lemma {:induction false} BatchesOfStep(c: Connections, probes: seq<Probe>, w: WorkerName)
    requires probes != []
    ensures var earlier, p := probes[..|probes| - 1], probes[|probes| - 1];
            BatchesOf(Batches(c, probes), w) ==
            BatchesOf(Batches(c, earlier), w) + if p.worker == w then Emitted(StateAfter(c, earlier), p) else []
  {
    var earlier, p := probes[..|probes| - 1], probes[|probes| - 1];
    var emitted := Emitted(StateAfter(c, earlier), p);
    BatchesOfSplits(Batches(c, earlier), emitted, w);
    if emitted != [] {
      assert emitted[..0] == [];
    }
    assert BatchesOf(emitted, w) == if p.worker == w then emitted else [];
  }

  lemma {:induction false} AlternatesAppend(batches: seq<Batch>, b: Batch)
    requires Alternates(batches)
    requires b.Outage? <==> !OutageOpen(batches)
    ensures Alternates(batches + [b]) && (OutageOpen(batches + [b]) <==> b.Outage?)
  {
    assert (batches + [b])[..|batches|] == batches;
  }

  lemma {:induction false} ProbeKeepsAlternation(batches: seq<Batch>, c: Connections, p: Probe, w: WorkerName)
    requires w in c && Alternates(batches) && (OutageOpen(batches) <==> c[w] == Offline)
    ensures var after := batches + if p.worker == w then Emitted(c, p) else [];
            Alternates(after) && (OutageOpen(after) <==> Recorded(c, p)[w] == Offline)
  {
    if p.worker == w && Emitted(c, p) != [] {
      AlternatesAppend(batches, Emitted(c, p)[0]);
      assert Emitted(c, p) == [Emitted(c, p)[0]];
    } else {
      assert batches + [] == batches;
    }
  }

  /**
   * Whatever the probes answer: the batches of a synced worker strictly alternate, beginning with an
   * outage, and an outage is open exactly while the recorded state is offline.
   */
  lemma {:induction false} OutagesAlternate(c: Connections, probes: seq<Probe>, w: WorkerName)
    requires w in c && c[w] != Offline
    ensures w in StateAfter(c, probes)
    ensures Alternates(BatchesOf(Batches(c, probes), w))
    ensures OutageOpen(BatchesOf(Batches(c, probes), w)) <==> StateAfter(c, probes)[w] == Offline
  {
    if probes != [] {
      var earlier, p := probes[..|probes| - 1], probes[|probes| - 1];
      OutagesAlternate(c, earlier, w);
      BatchesOfStep(c, probes, w);
      ProbeKeepsAlternation(BatchesOf(Batches(c, earlier), w), StateAfter(c, earlier), p, w);
    }
  }

  lemma {:induction false} OneMoreProbe(c: Connections, probes: seq<Probe>, p: Probe)
    ensures StateAfter(c, probes + [p]) == Recorded(StateAfter(c, probes), p)
    ensures Batches(c, probes + [p]) == Batches(c, probes) + Emitted(StateAfter(c, probes), p)
  {
    assert (probes + [p])[..|probes|] == probes;
  }

  // ----- workers without a row -----

  ghost function Failures(probes: seq<Probe>, w: WorkerName): nat {
    if probes == [] then 0
    else
      var n := |probes| - 1;
      Failures(probes[..n], w) + if probes[n] == Probe(w, false) then 1 else 0
  }

  ghost predicate OnlyOutages(batches: seq<Batch>) {
    forall i | 0 <= i < |batches| :: batches[i].Outage?
  }

  /** What a probe of a worker without a row emits: an outage if it failed. */
  lemma {:induction false} EmittedWithoutRow(c: Connections, p: Probe, w: WorkerName)
    requires w !in c
    ensures (if p.worker == w then Emitted(c, p) else []) == if p == Probe(w, false) then [Outage(w)] else []
  {
  }

  lemma {:induction false} ProbesAddNoRow(c: Connections, probes: seq<Probe>, w: WorkerName)
    requires w !in c
    ensures w !in StateAfter(c, probes)
  {
    if probes != [] {
      ProbesAddNoRow(c, probes[..|probes| - 1], w);
    }
  }

  /** A worker that was never synced has no row to remember the outage in: each failed probe emits a batch. */
  lemma {:induction false} UnsyncedWorkerRepeatsOutage(c: Connections, probes: seq<Probe>, w: WorkerName)
    requires w !in c
    ensures OnlyOutages(BatchesOf(Batches(c, probes), w))
    ensures |BatchesOf(Batches(c, probes), w)| == Failures(probes, w)
  {
    if probes != [] {
      UnsyncedWorkerRepeatsOutage(c, probes[..|probes| - 1], w);
      ProbesAddNoRow(c, probes[..|probes| - 1], w);
      BatchesOfStep(c, probes, w);
      EmittedWithoutRow(StateAfter(c, probes[..|probes| - 1]), probes[|probes| - 1], w);
      hide Batches, BatchesOf, StateAfter, Emitted;
    }
  }

  lemma {:induction false} OutagesAloneAlternate(batches: seq<Batch>)
    requires OnlyOutages(batches)
    ensures Alternates(batches) <==> |batches| <= 1
  {
    if batches != [] {
      var earlier := batches[..|batches| - 1];
      OutagesAloneAlternate(earlier);
      assert earlier != [] ==> earlier[|earlier| - 1].Outage?;
    }
  }

  /**
   * Whatever the probes answer, the batches of a worker alternate if and only if it has a row, or at most
   * one probe of it failed. Only a program that skips the sync has workers without a row.
   */
  lemma {:induction false} AlternatesExactly(c: Connections, probes: seq<Probe>, w: WorkerName)
    requires w in c ==> c[w] != Offline
    ensures Alternates(BatchesOf(Batches(c, probes), w)) <==> w in c || Failures(probes, w) <= 1
  {
    if w in c {
      OutagesAlternate(c, probes, w);
    } else {
      UnsyncedWorkerRepeatsOutage(c, probes, w);
      OutagesAloneAlternate(BatchesOf(Batches(c, probes), w));
    }
  }

  class HealthTable {
    var states: Connections
    const synced: set<WorkerName>
    ghost var probes: seq<Probe>
    ghost var batches: seq<Batch>

    ghost function Initial(): Connections
    {
      map w | w in synced :: Unknown
    }

    ghost predicate Valid()
      reads this
    {
      states == StateAfter(Initial(), probes) && batches == Batches(Initial(), probes)
    }

    /** `sync_workers` on an empty database. */
    constructor (names: set<WorkerName>)
      ensures Valid() && synced == names && probes == []
    {
      synced := names;
      states := map w | w in names :: Unknown;
      probes, batches := [], [];
    }

    /** `record_worker_probe`: stores the outcome and returns the state it replaces. */
    method RecordWorkerProbe(w: WorkerName, reachable: bool) returns (previous: Option<Connection>)
      modifies this`states
      ensures previous == if w in old(states) then Some(old(states)[w]) else None
      ensures states == Recorded(old(states), Probe(w, reachable))
    {
      previous := if w in states then Some(states[w]) else None;
      if previous.Some? {
        states := states[w := if reachable then Online else Offline];
      }
    }

    method MarkUnreachable(w: WorkerName)
      requires Valid()
      modifies this
      ensures Valid() && probes == old(probes) + [Probe(w, false)]
    {
      OneMoreProbe(Initial(), probes, Probe(w, false));
      var previous := RecordWorkerProbe(w, false);
      probes := probes + [Probe(w, false)];
      if previous == Some(Offline) {
        return;
      }
      batches := batches + [Outage(w)];
    }

    method MarkReachable(w: WorkerName)
      requires Valid()
      modifies this
      ensures Valid() && probes == old(probes) + [Probe(w, true)]
    {
      OneMoreProbe(Initial(), probes, Probe(w, true));
      var previous := RecordWorkerProbe(w, true);
      probes := probes + [Probe(w, true)];
      if previous != Some(Offline) {
        return;
      }
      batches := batches + [Recovery(w)];
    }
  }
}
