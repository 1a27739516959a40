/** The `gpu_condition_states` table of gpu_watcher/store.py: how long a GPU has met a condition. */
module GpuConditions {
  import opened Models

  datatype ConditionKey = ConditionKey(worker: WorkerName, gpu: int, condition: GpuCondition)

  datatype ConditionRow = ConditionRow(isFree: bool, freeSince: Option<int>)

  /** One recorded observation of a GPU against a condition. */
  datatype Observation = Observation(free: bool, at: int)

  function NextRow(previous: Option<ConditionRow>, free: bool, now: int): ConditionRow {
    var carried := if previous.Some? && previous.value.isFree && free then previous.value.freeSince else None;
    ConditionRow(free, if free && carried.None? then Some(now) else carried)
  }

  /** The row that a key's recorded observations leave behind. */
  ghost function Replay(history: seq<Observation>): Option<ConditionRow> {
    if history == [] then None
    else
      var last := history[|history| - 1];
      Some(NextRow(Replay(history[..|history| - 1]), last.free, last.at))
  }

  /** The current unbroken run of free observations begins at position `k`. */
  ghost predicate FreeRunFrom(history: seq<Observation>, k: nat) {
    && k < |history|
    && (forall i | k <= i < |history| :: history[i].free)
    && (k > 0 ==> !history[k - 1].free)
  }

  /** `free_since` is when the current run of free observations began, and is empty outside such a run. */
  lemma {:induction false} FreeSinceIsRunStart(history: seq<Observation>) returns (k: nat)
    requires history != []
    ensures Replay(history).value.isFree <==> history[|history| - 1].free
    ensures !history[|history| - 1].free ==> Replay(history).value.freeSince == None
    ensures history[|history| - 1].free ==>
              FreeRunFrom(history, k) && Replay(history).value.freeSince == Some(history[k].at)
  {
    var n := |history| - 1;
    k := n;
    if n > 0 {
      var before := FreeSinceIsRunStart(history[..n]);
      if history[n].free && history[n - 1].free {
        k := before;
      }
    }
  }

  // ----- what one probe of a worker records -----

  type History = map<ConditionKey, seq<Observation>>

  ghost function Recorded(h: History, key: ConditionKey): seq<Observation> {
    if key in h then h[key] else []
  }

  ghost function Append(h: History, key: ConditionKey, o: Observation): History {
    h[key := Recorded(h, key) + [o]]
  }

  ghost function AfterGpu(h: History, worker: WorkerName, g: GpuState, conditions: seq<GpuCondition>,
                          now: int): History
  {
    if conditions == [] then h
    else
      var n := |conditions| - 1;
      Append(AfterGpu(h, worker, g, conditions[..n], now),
             ConditionKey(worker, g.index, conditions[n]), Observation(g.IsFree(conditions[n]), now))
  }

  ghost function AfterProbe(h: History, worker: WorkerName, states: seq<GpuState>, conditions: seq<GpuCondition>,
                            now: int): History
  {
    if states == [] then h
    else
      AfterGpu(AfterProbe(h, worker, states[..|states| - 1], conditions, now), worker, states[|states| - 1], conditions,
        now)
  }

  lemma {:induction false} GpuRecordsOnce(h: History, worker: WorkerName, g: GpuState, conditions: seq<GpuCondition>,
                                          now: int, key: ConditionKey)
    requires Distinct(conditions)
    ensures Recorded(AfterGpu(h, worker, g, conditions, now), key) ==
            Recorded(h, key) + (if key.worker == worker && key.gpu == g.index && key.condition in conditions
                                then [Observation(g.IsFree(key.condition), now)] else [])
  {
    if conditions != [] {
      var n := |conditions| - 1;
      GpuRecordsOnce(h, worker, g, conditions[..n], now, key);
      assert conditions == conditions[..n] + [conditions[n]];
    }
  }

  /**
   * A probe appends exactly one observation to the history of every (reported GPU, condition) pair of the
   * worker, and leaves every other history alone.
   */
  lemma {:induction false} ProbeRecordsOnce(h: History, worker: WorkerName, states: seq<GpuState>,
                                            conditions: seq<GpuCondition>, now: int, key: ConditionKey)
    requires DistinctIndexes(states) && Distinct(conditions)
    ensures forall g | g in states && key.worker == worker && key.gpu == g.index && key.condition in conditions ::
              Recorded(AfterProbe(h, worker, states, conditions, now), key) == Recorded(h, key)
                + [Observation(g.IsFree(key.condition), now)]
    ensures (key.worker != worker || key.condition !in conditions || forall g | g in states :: key.gpu != g.index) ==>
              Recorded(AfterProbe(h, worker, states, conditions, now), key) == Recorded(h, key)
  {
    if states != [] {
      var n := |states| - 1;
      ProbeRecordsOnce(h, worker, states[..n], conditions, now, key);
      GpuRecordsOnce(AfterProbe(h, worker, states[..n], conditions, now), worker, states[n], conditions, now, key);
      assert states == states[..n] + [states[n]];
      assert forall g | g in states[..n] :: g.index != states[n].index;
    }
  }

  class GpuConditionTable {
    var rows: map<ConditionKey, ConditionRow>
    /** Every observation recorded under a key, oldest first. */
    ghost var history: History

    ghost predicate Valid()
      reads this
    {
      Consistent(rows, history)
    }

    constructor ()
      ensures Valid() && rows == map[] && history == map[]
    {
      rows, history := map[], map[];
    }

    method Upsert(key: ConditionKey, free: bool, now: int)
      requires Valid()
      modifies this
      ensures Valid()
      ensures history == Append(old(history), key, Observation(free, now))
    {
      var previous := if key in rows then Some(rows[key]) else None;
      ghost var before := Recorded(history, key);
      assert (before + [Observation(free, now)])[..|before|] == before;
      rows := rows[key := NextRow(previous, free, now)];
      history := Append(history, key, Observation(free, now));
    }

    /** `update_gpu_condition_states`. */
    method Update(worker: WorkerName, states: seq<GpuState>, conditions: seq<GpuCondition>, now: int)
      requires Valid()
      modifies this
      ensures Valid()
      ensures history == AfterProbe(old(history), worker, states, conditions, now)
    {
      for g := 0 to |states|
        invariant Valid()
        invariant history == AfterProbe(old(history), worker, states[..g], conditions, now)
      {
        ghost var before := history;
        for c := 0 to |conditions|
          invariant Valid()
          invariant history == AfterGpu(before, worker, states[g], conditions[..c], now)
        {
          Upsert(ConditionKey(worker, states[g].index, conditions[c]), states[g].IsFree(conditions[c]), now);
          assert conditions[..c + 1][..c] == conditions[..c];
        }
        assert conditions[..|conditions|] == conditions;
        assert states[..g + 1][..g] == states[..g];
      }
      assert states[..|states|] == states;
    }
  }

  /** Each stored row is what its recorded observations add up to. */
  ghost predicate Consistent(rows: map<ConditionKey, ConditionRow>, history: History) {
    && rows.Keys == history.Keys
    && forall key | key in rows :: history[key] != [] && Replay(history[key]) == Some(rows[key])
  }

  /** The last observations were all free, and the first of them is at least `seconds` old. */
  ghost predicate FreeFor(history: seq<Observation>, seconds: int, now: int) {
    exists k: nat :: FreeRunFrom(history, k) && now - history[k].at >= seconds
  }

  /** The stored `free_since` answers exactly whether a recorded free run is long enough. */
  lemma {:induction false} FreeSinceMeasuresRun(rows: map<ConditionKey, ConditionRow>, history: History,
                                                key: ConditionKey, seconds: int, now: int)
    requires Consistent(rows, history)
    ensures (key in rows && rows[key].freeSince.Some? && now - rows[key].freeSince.value >= seconds) <==>
            (key in history && FreeFor(history[key], seconds, now))
  {
    if key in rows {
      var k := FreeSinceIsRunStart(history[key]);
      forall j: nat | FreeRunFrom(history[key], j)
        ensures j == k
      {
        assert history[key][|history[key]| - 1].free;
      }
    }
  }
}
