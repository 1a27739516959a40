/** What the dispatch pass counts before it places a task: busy GPUs, used slots and background tasks. */
module Occupancy {
  import opened Models
  import opened Lifecycle
  import opened Capacity
  import opened Queries

  // ----- one worker's share of a listing -----

  function OnlyOn(s: seq<Task>, w: WorkerName): seq<Task> {
    if s == [] then []
    else
      var n := |s| - 1;
      OnlyOn(s[..n], w) + if s[n].worker == Some(w) then [s[n]] else []
  }

  /** Rows drawn from all but the last of a distinct listing are distinct from the last. */
  lemma {:induction false} DistinctAppend(rest: seq<Task>, s: seq<Task>)
    requires s != [] && forall t | t in rest :: t in s[..|s| - 1]
    ensures DistinctIds(s) ==> DistinctIds(s[..|s| - 1])
    ensures DistinctIds(s) && DistinctIds(rest) ==> DistinctIds(rest + [s[|s| - 1]])
  {
    forall i | 0 <= i < |rest| && DistinctIds(s)
      ensures rest[i].id != s[|s| - 1].id
    {
      assert rest[i] in rest && rest[i] in s[..|s| - 1];
      var k :| 0 <= k < |s| - 1 && s[k] == rest[i];
    }
  }

  lemma {:induction false} OnlyOnMembers(s: seq<Task>, w: WorkerName)
    ensures forall t :: t in OnlyOn(s, w) <==> t in s && t.worker == Some(w)
    ensures DistinctIds(s) ==> DistinctIds(OnlyOn(s, w))
  {
    if s != [] {
      var n := |s| - 1;
      OnlyOnMembers(s[..n], w);
      assert s == s[..n] + [s[n]];
      DistinctAppend(OnlyOn(s[..n], w), s);
      hide DistinctIds;
    }
  }

  lemma {:induction false} OnlyOnLists(s: seq<Task>, tasks: TaskTable, w: WorkerName)
    requires Lists(s, tasks, WithStatus(tasks, Running))
    ensures Lists(OnlyOn(s, w), tasks, OnWorker(tasks, w))
  {
    OnlyOnMembers(s, w);
    forall i | 0 <= i < |OnlyOn(s, w)|
      ensures OnlyOn(s, w)[i] in s
    {
    }
  }

  function OnlyBackground(s: seq<Task>): seq<Task> {
    if s == [] then []
    else
      var n := |s| - 1;
      OnlyBackground(s[..n]) + if s[n].options.background then [s[n]] else []
  }

  lemma {:induction false} OnlyBackgroundMembers(s: seq<Task>)
    ensures forall t :: t in OnlyBackground(s) <==> t in s && t.options.background
    ensures DistinctIds(s) ==> DistinctIds(OnlyBackground(s))
  {
    if s != [] {
      var n := |s| - 1;
      OnlyBackgroundMembers(s[..n]);
      assert s == s[..n] + [s[n]];
      DistinctAppend(OnlyBackground(s[..n]), s);
      hide DistinctIds;
    }
  }

  lemma {:induction false} OnlyBackgroundLists(s: seq<Task>, tasks: TaskTable, w: WorkerName)
    requires Lists(s, tasks, OnWorker(tasks, w))
    ensures Lists(OnlyBackground(s), tasks, BackgroundOn(tasks, w))
  {
    OnlyBackgroundMembers(s);
    forall i | 0 <= i < |OnlyBackground(s)|
      ensures OnlyBackground(s)[i] in s
    {
    }
  }

  lemma {:induction false} ListSize(s: seq<Task>, tasks: TaskTable, ids: set<TaskId>)
    requires Lists(s, tasks, ids)
    ensures |s| == |ids|
  {
    if s != [] {
      var rest := ids - {s[0].id};
      assert forall i | 0 <= i < |s| - 1 :: s[1..][i] == s[i + 1];
      forall t | t in rest
        ensures tasks[t] in s[1..]
      {
        var i :| 0 <= i < |s| && s[i] == tasks[t];
        assert i > 0;
        assert s[1..][i - 1] == s[i];
      }
      ListSize(s[1..], tasks, rest);
    } else {
      assert ids == {};
    }
  }

  lemma {:induction false} SlotSumAppend(s: seq<Task>, t: Task)
    ensures SlotSum(s + [t]) == SlotSum(s) + |t.gpus|
  {
    if s == [] {
      assert s + [t] == [t] && [t][1..] == [];
    } else {
      assert (s + [t])[1..] == s[1..] + [t];
      SlotSumAppend(s[1..], t);
    }
  }

  function CountOf(counts: map<WorkerName, nat>, w: WorkerName): nat {
    if w in counts then counts[w] else 0
  }

  /** `_running_gpu_slots_by_worker`: each worker's entry is the number of GPU slots held there. */
  method RunningGpuSlotsByWorker(tasks: TaskTable) returns (counts: map<WorkerName, nat>)
    requires KeyedById(tasks)
    ensures forall w :: CountOf(counts, w) == |Held(tasks, w)|
  {
    var running := RunningTasks(tasks);
    counts := map[];
    for i := 0 to |running|
      invariant forall w :: CountOf(counts, w) == SlotSum(OnlyOn(running[..i], w))
    {
      var t := running[i];
      assert running[..i + 1][..i] == running[..i];
      forall w
        ensures SlotSum(OnlyOn(running[..i + 1], w)) ==
                SlotSum(OnlyOn(running[..i], w)) + if t.worker == Some(w) then |t.gpus| else 0
      {
        SlotSumAppend(OnlyOn(running[..i], w), t);
        assert OnlyOn(running[..i], w) + [] == OnlyOn(running[..i], w);
      }
      if t.worker.Some? {
        var w := t.worker.value;
        counts := counts[w := CountOf(counts, w) + |t.gpus|];
      }
    }
    assert running[..|running|] == running;
    forall w
      ensures CountOf(counts, w) == |Held(tasks, w)|
    {
      OnlyOnLists(running, tasks, w);
      SlotSumIsHeld(OnlyOn(running, w), tasks, w);
    }
  }

  lemma {:induction false} OneMoreBackground(s: seq<Task>, t: Task, w: WorkerName)
    ensures |OnlyBackground(OnlyOn(s + [t], w))| ==
            |OnlyBackground(OnlyOn(s, w))| + if t.worker == Some(w) && t.options.background then 1 else 0
  {
    var before := OnlyOn(s, w);
    assert (s + [t])[..|s|] == s;
    assert (before + [t])[..|before|] == before;
    assert before + [] == before;
  }

  lemma {:induction false} BackgroundCount(running: seq<Task>, tasks: TaskTable, w: WorkerName)
    requires Lists(running, tasks, WithStatus(tasks, Running))
    ensures |OnlyBackground(OnlyOn(running, w))| == |BackgroundOn(tasks, w)|
  {
    hide Lists, OnlyOn, OnlyBackground;
    OnlyOnLists(running, tasks, w);
    OnlyBackgroundLists(OnlyOn(running, w), tasks, w);
    ListSize(OnlyBackground(OnlyOn(running, w)), tasks, BackgroundOn(tasks, w));
  }

  lemma {:induction false} NoBackground()
    ensures forall w :: OnlyBackground(OnlyOn([], w)) == []
  {
  }

  /** `_running_background_counts_by_worker`. */
  method RunningBackgroundCountsByWorker(tasks: TaskTable) returns (counts: map<WorkerName, nat>)
    requires KeyedById(tasks)
    ensures forall w :: CountOf(counts, w) == |BackgroundOn(tasks, w)|
  {
    var running := RunningTasks(tasks);
    counts := map[];
    NoBackground();
    hide OnlyOn, OnlyBackground, Lists, BackgroundOn;
    for i := 0 to |running|
      invariant forall w :: CountOf(counts, w) == |OnlyBackground(OnlyOn(running[..i], w))|
    {
      var t := running[i];
      assert running[..i + 1] == running[..i] + [t];
      forall w
        ensures |OnlyBackground(OnlyOn(running[..i + 1], w))| ==
                |OnlyBackground(OnlyOn(running[..i], w))| + if t.worker == Some(w) && t.options.background then 1 else 0
      {
        OneMoreBackground(running[..i], t, w);
      }
      if t.worker.Some? && t.options.background {
        var w := t.worker.value;
        counts := counts[w := CountOf(counts, w) + 1];
      }
    }
    assert running[..|running|] == running;
    forall w
      ensures CountOf(counts, w) == |BackgroundOn(tasks, w)|
    {
      BackgroundCount(running, tasks, w);
    }
  }

  function BusyOf(occupied: map<WorkerName, set<int>>, w: WorkerName): set<int> {
    if w in occupied then occupied[w] else {}
  }

  ghost function BusyBy(s: seq<Task>, w: WorkerName): set<int> {
    set t, g | t in s && t.worker == Some(w) && g in t.gpus :: g
  }

  lemma {:induction false} BusyByAppend(s: seq<Task>, t: Task, w: WorkerName)
    ensures BusyBy(s + [t], w) == BusyBy(s, w) + if t.worker == Some(w) then Elements(t.gpus) else {}
  {
    var added := if t.worker == Some(w) then Elements(t.gpus) else {};
    forall g | g in BusyBy(s, w) + added
      ensures g in BusyBy(s + [t], w)
    {
      if g in BusyBy(s, w) {
        var u :| u in s && u.worker == Some(w) && g in u.gpus;
        assert u in s + [t];
      } else {
        assert t in s + [t];
      }
    }
  }

  ghost function Without(tasks: TaskTable, exclude: Option<TaskId>): TaskTable {
    if exclude.Some? then tasks - {exclude.value} else tasks
  }

  /** The `occupied` map: GPUs assigned to running tasks, the excluded one aside. */
  method OccupiedGpus(tasks: TaskTable, exclude: Option<TaskId>) returns (occupied: map<WorkerName, set<int>>)
    requires KeyedById(tasks)
    ensures forall w :: BusyOf(occupied, w) == BusyGpus(Without(tasks, exclude), w)
  {
    var running := RunningTasks(tasks);
    occupied := map[];
    ghost var counted: seq<Task> := [];
    for i := 0 to |running|
      invariant forall t :: t in counted <==> t in running[..i] && exclude != Some(t.id)
      invariant forall w :: BusyOf(occupied, w) == BusyBy(counted, w)
    {
      var t := running[i];
      assert running[..i + 1] == running[..i] + [t];
      if exclude != Some(t.id) {
        ghost var before := counted;
        counted := counted + [t];
        forall w
          ensures BusyBy(counted, w) == BusyBy(before, w) + if t.worker == Some(w) then Elements(t.gpus) else {}
        {
          BusyByAppend(before, t, w);
        }
        if t.worker.Some? {
          var w := t.worker.value;
          occupied := occupied[w := BusyOf(occupied, w) + Elements(t.gpus)];
        }
      }
    }
    assert running[..|running|] == running;
    forall w
      ensures BusyBy(counted, w) == BusyGpus(Without(tasks, exclude), w)
    {
      CountedAreBusy(tasks, exclude, running, counted, w);
    }
  }

  lemma {:induction false} CountedAreBusy(tasks: TaskTable, exclude: Option<TaskId>, running: seq<Task>,
                                          counted: seq<Task>, w: WorkerName)
    requires Lists(running, tasks, WithStatus(tasks, Running))
    requires forall t :: t in counted <==> t in running && exclude != Some(t.id)
    ensures BusyBy(counted, w) == BusyGpus(Without(tasks, exclude), w)
  {
    var rest := Without(tasks, exclude);
    forall g | g in BusyGpus(rest, w)
      ensures g in BusyBy(counted, w)
    {
      var t :| t in OnWorker(rest, w) && g in rest[t].gpus;
      assert t in WithStatus(tasks, Running) && tasks[t] in running;
    }
    forall g | g in BusyBy(counted, w)
      ensures g in BusyGpus(rest, w)
    {
      var t :| t in counted && t.worker == Some(w) && g in t.gpus;
      var i :| 0 <= i < |running| && running[i] == t;
      assert t.id in OnWorker(rest, w);
    }
  }
}
