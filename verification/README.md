# Verification of the gpu-watcher scheduler

gpu-watcher runs queued commands on GPU hosts. A task is a row in an SQLite table; a running task is a tmux session
on a worker that leaves its exit code in a file. A scheduler ticks: it applies cron schedules, reconciles running
tasks with what their workers report, and dispatches the queue, preempting and resizing tasks on the way. Any probe,
launch or kill may fail.

This project models that scheduler in Dafny and proves what it keeps over every run.

## How it is built

* `models`, `lifecycle`, `cron`: the records, the row that each guarded UPDATE writes, and the cron parser.
* `store`, `remote`, `gpu_conditions`, `worker_health`: classes whose methods update their fields as the originals
  update tables, sessions and exit files. Sessions exit or die on their own between any two remote calls.
* `protocol`, `safety`: the same system as actions on a world of rows, live sessions and exit files, with the
  invariant of every legal log and the safety theorems over whole logs.
* `capacity`, `queries`, `occupancy`, `gpu_selection`, `placement`, `victims`, `numa_preemption`, `elastic`: the
  decisions of a dispatch pass, each an imperative method proved against what it should compute.
* `pass_order`, `dispatch_effects`, `dispatch_pass`, `elastic_phase`, `pass_trace`, `refresh`, `triggers`, `schedules`,
  `ticks`: what the parts of a tick promise each other, turn by turn, and the theorems about a pass and about sequences
  of ticks.
* `cron_laws`, `option_laws`, `selection_laws`, `placement_laws`, `victim_laws`, `numa_laws`, `elastic_laws`,
  `order_laws`, `provenance`: what those decisions and rows come to, said of characters and moments, of the fields of
  tasks and GPUs, and of the steps of the log, without the functions that compute them; and that a choice of GPUs, a
  plan, a set of NUMA victims and a resize are each the only one their contract allows.
* `numa_reach`: which blocked same-node allocations an attempt preempts for.
* `numa_gap`, `numa_no_plan`, `elastic_gap`, `lost_exit`, `lost_victim`, `queue_gap`: states in which something promised
  or expected does not happen.
* `scheduler`: the `Scheduler` class. It logs every protocol action it performs; `Valid()` says that the log is a
  legal run from the empty table and that the tables and workers are in the state this run leads to. So every theorem
  about legal runs holds of every state the scheduler's methods can reach, whatever fails on the way.
* `connection_pool`: the store's connection pool, as a class with its three locked sections and as a step system over
  all interleavings of any number of operations.

`dafny verify dfyconfig.toml` checks everything.

## Assumptions

* One scheduler per database. Each control (`create`, `update`, `start`, `pause`, `rerun`, `cancel`) and each tick runs
  without another in between; workers act at any time. The daemon is not killed between launching a session and
  recording it.
* Workers have distinct, non-empty names, distinct GPU allowlists, a cap of at least 1 and a background cap of at
  least 0, and the configuration does not change during a run.
* A successful kill ends the session, a failed launch leaves none, and a session that wrote its exit code has ended.
  Session names and task directories are distinct for distinct workers and tasks. One probe reports a GPU index once.
* Every configured worker has a stored row: the program syncs the configuration before it builds a scheduler.
  `WorkerHealth.AlternatesExactly` says what an embedding that skips this would see.
* Times are integers, an average utilization is an exact rational. One clock reading serves a whole pass. Rows created
  at the same time are ordered by row number. Local time is an arbitrary function of time zone and UTC minute.
* Cron text is ASCII.

## What turned out not to hold

* An exit code can be lost: the task had finished, yet it is run again, failed or paused. A step that ends a run leaves
  the run's exit code unread if and only if the step is not the task's finish and a session of the run has exited by
  then, in every legal log: `Safety.EndLeavesUnreadExactly`. Two paths lead there.
  * `refresh_running_tasks` asks for the exit file, then for the session. A session that exits between the two is taken
    for lost: `Refresh.LossDiscardsExactly`, and `Refresh.RoundLosesExactly` for whole rounds. `LostExit` is a round in
    which a task that succeeded is put back in the queue. A code on file at the first question is never missed:
    `Refresh.CodeSeenIsUsed`.
  * A kill succeeds also when the session has ended by itself (gpu_watcher/remote.py:472-511), and nobody looks for an
    exit file before the victim is requeued or paused. Its code is left unread if and only if the file was there at the
    kill, whether for preemption, pause, resize, scheduled stop or cancellation: `Safety.VictimLeavesUnreadExactly`. In
    `LostVictim` a task is seen alive by the tick's refresh, exits with code 0, is preempted and waits to run again.
* An elastic task can be killed and restarted with as many GPUs as before, if some of its GPUs are missing from the
  probe. `ElasticGap.SameSizeMigrationHappens` is an instance in a state that a legal run reaches,
  `Elastic.SameSizeMigrationExactly` says exactly when, and `Elastic.RestartChangesCount` covers complete probes.
* `README.md` promises preemption whenever lower-priority tasks block a same-node allocation. An attempt asks for the
  victims of a node if and only if the task wants a node (several GPUs, not elastic, no `min_free_seconds`), it has a
  plan but only across nodes, and some blocked node lacks free GPUs while the victims that hold usable GPUs there also
  free enough slots: `NumaReach.ProposesExactly`, and node by node `NumaReach.FoundExactly`. In `NumaGap` the node has
  the GPUs but not the slots, so one background victim that would free them is spared and the task starts across nodes.
  In `NumaNoPlan` the task has no plan, so the count-based preemption kills on two nodes although two victims on one
  node would do.
* A pass need not attempt every queued regular task. When its regular loop ends, one was attempted if and only if fewer
  than 100 queued rows come before it: `DispatchPass.AttemptedExactly`. Background rows count too, so a hundred of them
  in front keep a regular task of the same priority from being tried at all. `QueueGap.LastIsShutOut` shows this, and
  the same behind a hundred regular tasks that were attempted and could not start.
* docs/architecture.md:66-67 describes an older placement rule (first worker in configuration order, task-count limit).
  The model follows the code and README.md:232-236.

## Model

| member | source | states |
|---|---|---|
| `Cron.ParseField` | gpu_watcher/cron.py:91-128 | The field parser's loop returns exactly the union of the list's parts, or an error if any part is malformed, out of range, descending or has no positive step. |
| `Cron.FieldMeaning` | gpu_watcher/cron.py:91-128 | A value is accepted if and only if some part of the list denotes it: in its range and reached by its step, with weekday 7 counted as 0. |
| `Cron.FieldInBounds` | gpu_watcher/cron.py:91-147 | Every accepted field is non-empty and within its bounds; weekdays lie in 0-6. |
| `Cron.NormalizationIsIdempotent` | gpu_watcher/cron.py:83-88 | What validation stores validates again to itself, and parses to the same expression as the original text. |
| `Cron.DayRule` | gpu_watcher/cron.py:65-80 | The day fields of every accepted expression follow the POSIX crontab rule: a `*` field leaves the other to decide, and two restricted ones match when either does. |
| `Cron.ParsedFieldsInBounds` | gpu_watcher/cron.py:44-63 | All five fields of every accepted expression are non-empty and within the calendar. |
| `CronLaws.LineIsDueExactly` | gpu_watcher/cron.py:44-80 | A stored line of five words is due at a moment if and only if all words are accepted, the first names the minute, the second the hour, the fourth the month, and the day rule holds of the third and the fifth. |
| `CronLaws.ValueSays` | gpu_watcher/cron.py:131-151 | A numeral, a month's or a weekday's name within the bounds names just its number; weekday 7 is Sunday, 0. |
| `CronLaws.RangeSays` | gpu_watcher/cron.py:113-127 | A range, with or without a step, names its values at whole steps from its start; one that runs backwards or leaves the bounds is refused. |
| `CronLaws.StarSays` | gpu_watcher/cron.py:103-127 | A star, with or without a step, names the values of the whole field at whole steps from its least. |
| `CronLaws.StepNeedsRange` | gpu_watcher/cron.py:121-124 | A step after a single value is refused. |
| `CronLaws.ListIsUnion` | gpu_watcher/cron.py:100-128 | Two accepted words joined by a comma name what either names. |
| `CronLaws.NumeralValue` | gpu_watcher/cron.py:146-147 | A numeral is worth its first digit times the power of ten of the rest, plus the rest. |
| `CronLaws.MonthNames` | gpu_watcher/cron.py:8-11 | `jan` to `dec` are 1 to 12, and no other text names a month. |
| `CronLaws.DayNames` | gpu_watcher/cron.py:12-14 | `sun` to `sat` are 0 to 6, and no other text names a weekday. |
| `CronLaws.AliasesAreDueExactly` | gpu_watcher/cron.py:15-23 | In any case of letters: `@hourly` is due at minute 0, `@daily` and `@midnight` at 00:00, `@weekly` then on Sundays, `@monthly` on the first, `@yearly` and `@annually` on January 1st, and at no other moment. |
| `CronLaws.LineIsStored` | gpu_watcher/cron.py:83-88 | A line of five words is stored without the blanks around it if all words are accepted, and refused otherwise. |
| `CronLaws.AliasIsStored` | gpu_watcher/cron.py:83-88 | An alias is stored as the line it stands for. |
| `Lifecycle.NormalizedOptionsAreStable` | gpu_watcher/store.py:1077-1116 | Accepted options satisfy the stored-row conditions (background implies preemptible, thresholds in range, schedules parse) and are accepted again unchanged. |
| `OptionLaws.AcceptedExactly` | gpu_watcher/store.py:1077-1109 | Options are accepted if and only if every number is in its range and every schedule given validates. |
| `OptionLaws.StoredExactly` | gpu_watcher/store.py:1112-1116 | They are stored unchanged but for the normal form of the schedules, none for an empty one, and that background work is preemptible. |
| `TaskStore.Store.UpdateTask` | gpu_watcher/store.py:416-513 | Replaces the options and clears the recorded triggers of a paused or untouched queued row; any other row, or invalid options, change nothing. |
| `TaskStore.Store.ClaimScheduleTrigger` | gpu_watcher/store.py:659-673 | A trigger is claimed exactly when it has not been claimed for this minute, and only its own column is written. |
| `TaskStore.Store.PauseTask` | gpu_watcher/store.py:826-859 | Pauses queued and running rows, with the preemptible check unless a schedule asks, and clears everything of the run. |
| `TaskStore.Store.CancelTask` | gpu_watcher/store.py:910-933 | Cancels exactly paused, queued and running rows and sets the end time. |
| `Queries.QueuedTasks` | gpu_watcher/store.py:610-621 | Returns the first queued rows by priority, age and row number, at most 100; every row left out comes after all that are in. |
| `Queries.RunningTasksForWorker` | gpu_watcher/store.py:631-641 | Returns each running row of the worker once, by priority and start time. |
| `Protocol.EveryRunKeepsInvariant` | gpu_watcher/store.py:675-933 | In every reachable state: queued and paused rows hold nothing of a run, running rows hold all of it, end times mark exactly terminal rows, SUCCEEDED means exit code 0; a live session belongs to the running row that names it or to a canceled one; running tasks of a worker hold disjoint GPUs within its cap and background limit, in the number they asked for. |
| `Protocol.StartKeepsCapacity` | gpu_watcher/scheduler.py:438-473 | Starting a task that fits keeps disjoint GPUs, the slot cap, the background limit and the requested counts on every worker. |
| `Safety.NoSecondCopy` | gpu_watcher/scheduler.py:93-112 | Over every run, a queued, paused or finished task has no live session and no task has two, whichever kills, launches and probes failed. |
| `Safety.RunningHoldsItsRequest` | gpu_watcher/scheduler.py:438-473 | Over every run, a running task holds as many distinct GPUs as it asked for, an elastic one at least one and no more. |
| `Safety.RunningShareNothing` | gpu_watcher/scheduler.py:408-436 | Over every run, two running tasks of one worker share no GPU. |
| `Safety.FinishUsesOwnExitCode` | gpu_watcher/scheduler.py:126-158 | The exit code that finishes a task was written by a session of its present run, after that run's start and on its worker, however often the task was preempted, moved, paused or rerun before. |
| `Safety.ExitOnDiskExactly` | gpu_watcher/remote.py:220-264 | A running task's exit code is on disk if and only if a session of its present run has exited. |
| `Safety.EndLeavesUnreadExactly` | gpu_watcher/scheduler.py:125-158 | Over every run: the step that ends a task's run leaves its exit code on disk unread if and only if it is not the finish and a session of that run has exited by then. |
| `Safety.VictimLeavesUnreadExactly` | gpu_watcher/scheduler.py:754-765 | A killed task whose run is then ended by whatever means but its finish loses its exit code if and only if the exit file was there at the kill. |
| `Refresh.LossDiscardsExactly` | gpu_watcher/scheduler.py:125-156 | A task taken for lost leaves an exit code unread if and only if its session exited between the read of the exit file and the look at the session. |
| `Refresh.RoundLosesExactly` | gpu_watcher/scheduler.py:114-156 | The same for every loss in a whole round: there was no file at the first question, and a code is lost exactly if the session exited before the second. |
| `Refresh.CodeSeenIsUsed` | gpu_watcher/scheduler.py:125-158 | A code on file at the first question finishes the task, if the worker answers. |
| `LostExit.LossCanDiscardSuccess` | gpu_watcher/scheduler.py:125-156 | A whole round in which the session exits with code 0 between the two questions and the task is requeued as lost. |
| `LostExit.BegunIsReached` | gpu_watcher/scheduler.py:968-991 | The state before that round is reached by a legal run. |
| `LostVictim.SuccessIsPreempted` | gpu_watcher/remote.py:472-511 | A legal run in which a task exits with code 0, is killed without effect and queued again, its code unread. |
| `LostVictim.SeenAlive` | gpu_watcher/scheduler.py:114-162 | Just before, a whole refresh round finds the task alive. |
| `LostVictim.AttemptPreempts` | gpu_watcher/scheduler.py:768-820 | The preemption is one that an attempt of the pass makes for the waiting task. |
| `LostVictim.BegunIsReached` | gpu_watcher/scheduler.py:968-991 | The state before that round is reached by a legal run. |
| `Safety.NonPreemptibleKeepsRunning` | gpu_watcher/scheduler.py:200-210 | A running task's options are frozen; if it is not preemptible no step returns it to the queue and only a scheduled stop pauses it. |
| `Safety.SuccessAndCancelStay` | gpu_watcher/store.py:861-933 | SUCCEEDED and CANCELED are never left, and the exit code stays. |
| `Safety.CreatedPausedWaits` | gpu_watcher/store.py:320-414 | Over every run, a task created paused is neither queued nor run before a start puts it in the queue. |
| `Safety.CreatedQueuedWaits` | gpu_watcher/store.py:320-414 | A task created to run waits in the queue at once, with the options it was created with. |
| `Provenance.RowIsAsChosen` | gpu_watcher/store.py:320-513 | Over every run, a task has the options it was created with or last edited to, and the time of its one creation. |
| `Provenance.TriggerIsLastClaim` | gpu_watcher/store.py:659-673 | Over every run, a trigger's recorded minute is that of its last claim since the task was created or last edited, or none. |
| `Provenance.StatusIsLastMove` | gpu_watcher/store.py:675-933 | Over every run, a task's status is the one in which the last step that moved it left it: queued by a start, a rerun or a preemption, paused by a pause, running, canceled, succeeded or failed by its exit code, queued or failed when lost. |
| `Provenance.RunningRowIsItsStart` | gpu_watcher/store.py:675-712 | A running task's start time, worker and GPUs are those of the start of its present run. |
| `Provenance.TerminalRowIsItsEnd` | gpu_watcher/store.py:714-755 | A terminal task's end time is that of the last step that ended it; canceled means canceled, succeeded means finished, and a lost task that is not retried failed without a code. |
| `GpuConditions.FreeSinceIsRunStart` | gpu_watcher/store.py:952-1020 | `free_since` is the time of the first observation of the present unbroken run of free observations, and is empty when the last one was not free. |
| `GpuConditions.ProbeRecordsOnce` | gpu_watcher/store.py:952-1020 | A probe appends one observation to every pair of reported GPU and condition of its worker and touches no other history. |
| `GpuConditions.FreeSinceMeasuresRun` | gpu_watcher/scheduler.py:953-966 | The stored `free_since` passes the age test if and only if a recorded free run is that long. |
| `GpuSelection.SelectGpuSet` | gpu_watcher/scheduler.py:862-895 | The selected set lies in one NUMA node if any known node has enough candidates, no set so restricted has a smaller load key (otherwise no set of that size has), and in preference order it is one by one at least as good as any other. |
| `GpuSelection.ChoiceIsNoLighterThanPrefix` | gpu_watcher/scheduler.py:859-895 | The prefix of the preference order has the least (average utilization, maximum utilization, memory, first index) key among all sets of its size. |
| `SelectionLaws.SelectedIsLightest` | gpu_watcher/scheduler.py:862-895 | No permitted set of the size has a smaller total utilization; of those with the same, none has a less busy busiest GPU; then none has less memory in use; then none has a lower lowest index. |
| `SelectionLaws.TotalsIgnoreOrder` | gpu_watcher/scheduler.py:886-888 | The two totals depend only on which GPUs the set holds. |
| `SelectionLaws.TotalsAdd` | gpu_watcher/scheduler.py:886-888 | The totals of joined sets are the sums of their totals. |
| `SelectionLaws.MaxIsBusiest` | gpu_watcher/scheduler.py:887 | The maximum is the utilization of a GPU that no other exceeds. |
| `SelectionLaws.SelectionIsListed` | gpu_watcher/scheduler.py:859-881 | The selected GPUs are listed by utilization, then memory in use, then index. |
| `SelectionLaws.SelectionIsUnique` | gpu_watcher/scheduler.py:862-895 | The contract leaves one set in one order. |
| `Placement.AvailableGpusByWorker` | gpu_watcher/scheduler.py:408-436 | For every enabled worker: exactly the reported GPUs that no other running task holds and that meet the task's condition, in preference order. |
| `Placement.FindPlan` | gpu_watcher/scheduler.py:438-473 | No plan exactly when no enabled, targeted worker under its background limit has room; otherwise a plan of least key over all workers and all choices of GPUs, and it fits the worker's limits. |
| `Placement.PlanSizeMeansRoom` | gpu_watcher/scheduler.py:451-460 | The plan-size arithmetic accepts a worker exactly when it has the GPUs and slots the task needs at least, and stays within the request and the cap. |
| `Placement.PlanIsLocalWhenPossible` | gpu_watcher/scheduler.py:475-490 | For a multi-GPU task that is not elastic the plan is NUMA-local if and only if some eligible worker has a complete allocation on one node. |
| `Placement.ChosenGpusWereFree` | gpu_watcher/scheduler.py:953-966 | Every GPU given by a plan to a task with `min_free_seconds` has a recorded free run of that length. (An elastic restart keeps GPUs without this test.) |
| `PlacementLaws.OfferedExactly` | gpu_watcher/scheduler.py:408-436 | A GPU is offered to a task if and only if it is reported, no running task holds it, memory in use and utilization are at most the task's limits or else the daemon's (memory unlimited to 999999 MB when only a free minimum is set), the free minimum is left, and all that has lasted as long as the task asks. |
| `PlacementLaws.PlanGpusAreFree` | gpu_watcher/scheduler.py:438-473 | So is every GPU of a plan. |
| `PlacementLaws.ElasticLimitExactly` | gpu_watcher/scheduler.py:908-920 | The elastic limit is the most GPUs that the request, the allowlist (or the report, without one) and the cap all allow. |
| `PlacementLaws.ElasticStartsAtMost` | gpu_watcher/scheduler.py:451-460 | An elastic task starts with the most GPUs that are free and that request, allowlist and cap allow. |
| `PlacementLaws.TargetsExactly` | gpu_watcher/scheduler.py:447-448 | A task may use a worker if and only if it names that worker or none. |
| `PlacementLaws.PlanIsFirst` | gpu_watcher/scheduler.py:462-473 | No choice on any eligible worker comes before the plan: on one node before not, then lower average utilization, less busy busiest GPU, less memory in use, earlier worker, lower index. |
| `PlacementLaws.PlanIsUnique` | gpu_watcher/scheduler.py:438-473 | The contract leaves one plan: worker, GPUs and their order. |
| `PlacementLaws.LocalExactly` | gpu_watcher/scheduler.py:475-490 | A plan for several GPUs counts as local if and only if the probe shows all of them on one node. |
| `Victims.TakeVictims` | gpu_watcher/scheduler.py:738-749 | The loop takes the shortest non-empty prefix of the candidates that covers the GPU and the slot deficit, or all of them. |
| `Victims.CoversExactly` | gpu_watcher/scheduler.py:788-803 | That prefix suffices if and only if all candidates together do. |
| `Victims.CandidatesMembers` | gpu_watcher/scheduler.py:731-736 | The candidates are exactly the worker's running rows of lower priority that the preemptor may take, each once, in its order. |
| `VictimLaws.PermittedExactly` | gpu_watcher/scheduler.py:514-522 | A task is a candidate if and only if it runs on the worker with a lower priority and is of the kind the route may take. |
| `VictimLaws.CandidatesInOrder` | gpu_watcher/scheduler.py:523-529 | Candidates come by priority, then start; for a node, background tasks before the others. |
| `VictimLaws.SparedComeLater` | gpu_watcher/scheduler.py:736-749 | No permitted task that is spared has a lower priority than a victim, or the same and an earlier start. |
| `VictimLaws.LastVictimIsNeeded` | gpu_watcher/scheduler.py:740-749 | Without the last of several victims GPUs or slots would fall short. |
| `Victims.ReleasingVictimsFreesSlots` | gpu_watcher/scheduler.py:723-749 | While the worker is within its cap, the preemptor's slot count is the true number of free slots after release, which is at least the request. |
| `NumaPreemption.FindNumaPreemptionPlan` | gpu_watcher/scheduler.py:492-603 | The plan's victims suffice and have the least key over every worker, every node and every non-empty subset of the eligible victims there; no plan means no subset suffices. |
| `NumaPreemption.PlanExistsExactly` | gpu_watcher/scheduler.py:538-577 | A plan exists if and only if on some searched node releasing all victims that hold usable GPUs there would do. |
| `NumaPreemption.PlanIsIrredundant` | gpu_watcher/scheduler.py:560-603 | Sparing any one victim of the plan leaves too few GPUs on the node or too few slots. |
| `NumaLaws.NoSetIsPreferred` | gpu_watcher/scheduler.py:581-603 | No sufficient victim set on any searched node has fewer regular victims; of those with as many, none has fewer victims, then none releases fewer GPUs, then none has a lower sum of priorities, then none an earlier start; then worker order, node and candidate order decide. |
| `NumaLaws.CheaperReplacementFails` | gpu_watcher/scheduler.py:581-603 | Replacing one victim by a spared one of the node, of the same kind and GPU count, never suffices if that one has a lower priority, or the same and started before all victims. |
| `NumaLaws.ReplacementExists` | gpu_watcher/scheduler.py:560-563 | Every such replacement is a set the search enumerates. |
| `NumaLaws.SufficientExactly` | gpu_watcher/scheduler.py:564-579 | A set suffices if and only if the node then offers enough GPUs and, under a cap, the slots still in use leave room. |
| `NumaLaws.FreedExactly` | gpu_watcher/scheduler.py:548-558 | A victim frees a GPU if and only if it holds it and the probe shows it on the node, large enough for the task. |
| `NumaLaws.FreeOnNodeExactly` | gpu_watcher/scheduler.py:539-543 | What counts as free on a node are the offered GPUs that the probe shows there. |
| `NumaLaws.SearchedOnlyFor` | gpu_watcher/scheduler.py:497-498 | Only a task of several GPUs that is not elastic and sets no `min_free_seconds` wants a node. |
| `NumaLaws.ProposalIsUnique` | gpu_watcher/scheduler.py:600-603 | The contract leaves one set of victims, also among equal keys. |
| `NumaGap.SearchFindsNothing` | gpu_watcher/scheduler.py:538-577 | In the gap state no victim plan exists. |
| `NumaGap.SplitHasRoom` | gpu_watcher/scheduler.py:444-469 | In the gap state there is a plan. |
| `NumaGap.PlanCrossesNodes` | gpu_watcher/scheduler.py:245-252 | In the gap state every plan the task can get crosses nodes. |
| `NumaGap.NodeIsFreeAfterwards` | gpu_watcher/scheduler.py:543-545 | In the gap state a permitted victim blocks an allocation on one node that its release would make possible. |
| `NumaGap.NodeIsBlocked` | gpu_watcher/scheduler.py:543-545 | That node is blocked but not short of GPUs, so it is out of the search's reach. |
| `NumaGap.StateIsOrderly` | gpu_watcher/scheduler.py:538-577 | The gap state satisfies the row and capacity invariants. |
| `NumaReach.FoundExactly` | gpu_watcher/scheduler.py:538-577 | The search has victims to offer on a node if and only if the node is blocked, lacks free GPUs, and the victims that hold usable GPUs there free enough slots. |
| `NumaReach.ProposesExactly` | gpu_watcher/scheduler.py:245-252 | An attempt asks for the kills of a node proposal if and only if the task wants a node, it has a plan but only across nodes, and some node is in the search's reach. |
| `NumaReach.AttemptProposesExactly` | gpu_watcher/scheduler.py:243-272 | The same, read off the record that every attempt of a pass leaves. |
| `NumaReach.NodeRouteStartsExactly` | gpu_watcher/scheduler.py:245-252 | After kills for a node the task gets a plan if and only if a complete one-node allocation is there by then, and the plan is local. |
| `NumaNoPlan.NoPlan` | gpu_watcher/scheduler.py:254-260 | In the second gap state the task has no plan. |
| `NumaNoPlan.NodeZeroInReach` | gpu_watcher/scheduler.py:538-577 | There the search would find two victims on one node. |
| `NumaNoPlan.NodeZeroIsNotProposed` | gpu_watcher/scheduler.py:245-260 | But no attempt in this state asks for a node's victims. |
| `NumaNoPlan.VictimsOnTwoNodes` | gpu_watcher/scheduler.py:768-820 | The count-based preemption chooses two victims on different nodes. |
| `NumaNoPlan.StateIsOrderly` | gpu_watcher/scheduler.py:538-577 | The second gap state satisfies the row and capacity invariants. |
| `NumaPreemption.ProposalVictims` | gpu_watcher/scheduler.py:514-522 | Every victim runs on the plan's worker with a lower priority and is background, or preemptible where the task may preempt. |
| `Elastic.Decide` | gpu_watcher/scheduler.py:650-691 | Keep, suspend or restart with the least-loaded set of the target size from the pool, kept GPUs first. |
| `Elastic.RestartWithinLimits` | gpu_watcher/scheduler.py:908-920 | A restart gets between one and the requested number of GPUs, within the slots other tasks leave. |
| `Elastic.ShrinkKeepsSubset` | gpu_watcher/scheduler.py:661-676 | A shrink suspends the task or keeps a strict subset of its GPUs, exactly the limit if the probe is complete. |
| `Elastic.SameSizeMigrationExactly` | gpu_watcher/scheduler.py:659-691 | A restart keeps the GPU count if and only if the task was to grow and as many of its GPUs are missing from the probe as there are additional ones. |
| `ElasticGap.SameSizeMigrationHappens` | gpu_watcher/scheduler.py:659-691 | An instance: the state's only possible resize restarts a task on one unreported GPU on one other GPU. |
| `ElasticGap.UnseenIsPosed` | gpu_watcher/scheduler.py:639-660 | It is what a resize looks at, with this table, probe and worker. |
| `ElasticGap.BegunIsReached` | gpu_watcher/scheduler.py:968-991 | The table is reached by a legal run. |
| `Elastic.RestartChangesCount` | gpu_watcher/scheduler.py:659-691 | If the probe shows all GPUs the task holds, a restart changes their number. |
| `Elastic.ResizeIsOneStep` | gpu_watcher/scheduler.py:639-710 | After a restart, resizing again in the same situation keeps the task as it is. |
| `ElasticLaws.TooManyAreGivenUp` | gpu_watcher/scheduler.py:661-699 | A task holding more GPUs than request, allowlist and cap allow is suspended or restarted on fewer of its own, with a complete probe on exactly as many as they allow. |
| `ElasticLaws.EnoughIsKept` | gpu_watcher/scheduler.py:661-668 | One that holds all it may, or that no other GPU is offered to, is left alone. |
| `ElasticLaws.GrowsToTheMost` | gpu_watcher/scheduler.py:664-699 | Any other, if the probe shows all it holds, is restarted on as many GPUs as are allowed and there are. |
| `ElasticLaws.KeptComeFirst` | gpu_watcher/scheduler.py:675-677 | Kept GPUs come before new ones, in the order in which the task had them. |
| `ElasticLaws.DecisionIsUnique` | gpu_watcher/scheduler.py:639-691 | The contract leaves one decision, down to the order of the GPUs. |
| `ElasticPhases.RestartFits` | gpu_watcher/scheduler.py:650-710 | On the live tables, the new GPU set of a task just put back in the queue fits its worker's limits. |
| `ElasticPhases.RestartSettles` | gpu_watcher/scheduler.py:639-710 | On the live tables with a complete probe, a restart changed the number of GPUs, and the same probe with the same other tasks then changes nothing. |
| `PassOrder.OrderedMeaning` | gpu_watcher/scheduler.py:230-286 | In an ordered log no task is killed after an earlier kill or start of the same task. |
| `DispatchPass.NextRegular` | gpu_watcher/scheduler.py:232-242 | The task attempted next is first by priority and age among all regular queued tasks not attempted yet, also those beyond the 100-row window, and fewer than 100 rows come before it. |
| `OrderLaws.NextIsMostUrgent` | gpu_watcher/store.py:610-621 | It has the highest priority of all that wait, is the oldest of these, and then the one inserted first. |
| `OrderLaws.QueueByUrgency` | gpu_watcher/store.py:610-621 | The queue query lists by the same order, and whoever it leaves out comes after all it lists. |
| `OrderLaws.RunningByStart` | gpu_watcher/store.py:623-629 | Running tasks are refreshed and resized in the order in which they were started. |
| `OrderLaws.ScheduledByAge` | gpu_watcher/store.py:648-657 | Scheduled tasks are treated in the order of their creation. |
| `DispatchPass.VictimsAreNew` | gpu_watcher/scheduler.py:515-522 | No victim of an attempt was killed or started earlier in the pass. |
| `DispatchPass.AttemptKeepsPhase` | gpu_watcher/scheduler.py:230-272 | Attempts stay in non-increasing priority although victims rejoin the queue the loop reads; no row gets ahead of an attempted one; starts are attempts, kills are ordered. |
| `DispatchPass.HasPendingRegular` | gpu_watcher/scheduler.py:842-851 | For a background task of the queue window, reports exactly whether the whole table holds a waiting regular task of higher priority that may use the worker. |
| `OrderLaws.HeldExactly` | gpu_watcher/scheduler.py:842-851 | A background task with a plan is held back if and only if a queued regular task of strictly higher priority names no other worker. |
| `DispatchEffects.RoutedVictims` | gpu_watcher/scheduler.py:245-269 | By whichever of the three routes: what is killed for a task was running with lower priority, is background or preemptible, and is allowed by that route's rule. |
| `ElasticPhases.PhasesJoin` | gpu_watcher/scheduler.py:216-275 | Regular and elastic phase together: nothing is killed twice or after its start, and every killed task was running when the pass began. |
| `DispatchPass.WindowExactly` | gpu_watcher/store.py:610-621 | The queue query returns a queued row if and only if fewer than 100 queued rows come before it. |
| `DispatchPass.AttemptedExactly` | gpu_watcher/scheduler.py:231-242 | When the regular loop ends, a queued regular task was attempted if and only if fewer than 100 queued rows come before it, regular or background. |
| `DispatchPass.ShortQueueIsExhausted` | gpu_watcher/scheduler.py:231-242 | So if at most 100 rows are queued when the regular loop ends, every waiting regular task was attempted. |
| `QueueGap.LastIsShutOut` | gpu_watcher/store.py:610-621 | A hundred rows, attempted regular ones that could not start or mere background ones, keep the next regular task out of the window and of the pass. |
| `Dispatch.Scheduler.KillTask` | gpu_watcher/scheduler.py:368-372 | Asks the task's own session to end; on success it is gone. |
| `Dispatch.Scheduler.PreemptVictim` | gpu_watcher/scheduler.py:754-765 | A victim is requeued if and only if its kill succeeded, and right after it: nobody looks for its exit code in between. |
| `Dispatch.Scheduler.PreemptVictims` | gpu_watcher/scheduler.py:754-765 | Requests one kill per victim in order and requeues exactly those whose kill succeeded. |
| `Dispatch.Scheduler.PreemptByCount` | gpu_watcher/scheduler.py:768-820 | Walks the workers in order, requests every kill of the shortest sufficient victim prefix of each, and stops at the first that loses a task; the requests, the requeued rows and the worker are determined. |
| `Dispatch.Scheduler.SearchPlan` | gpu_watcher/scheduler.py:243-269 | A local plan is used as it is; a plan across nodes is replaced by a local one or given up once the least victim set lost a task; without a plan background victims, then preemptible ones by consent, are preempted. After a preemption the worker is probed once more, and its answer or silence is what the new plan is made on. Every kill request it makes is determined by the route. |
| `Dispatch.Scheduler.AttemptRegular` | gpu_watcher/scheduler.py:242-272 | One attempt: its victims are queued again, a launch is requested exactly if its route gave a plan, the launched task runs by that plan or stays queued, no other row changes. |
| `Dispatch.Scheduler.StartWithRequeueOnFailure` | gpu_watcher/scheduler.py:968-991 | A launched task's row names its worker, GPUs, session and start; after a failed launch the row is as before. |
| `Dispatch.Scheduler.DispatchRegular` | gpu_watcher/scheduler.py:230-272 | The loop terminates after attempting, one by one, the first regular task of the queue as the earlier attempts left it, until exactly those were attempted that fewer than 100 rows precede; each attempt sees the daemon's thresholds, the pass's time and the condition histories with all probes up to then; every request and every probe belongs to one of these attempts. |
| `Dispatch.Scheduler.ResizeOne` | gpu_watcher/scheduler.py:640-710 | One task is kept, suspended or restarted as decided: exactly one kill request unless it is kept, a launch request only after a confirmed kill, and the row that results in each case. |
| `Dispatch.Scheduler.ResizeElasticTasks` | gpu_watcher/scheduler.py:639-710 | Every listed running elastic task gets its turn in start order, on the table the turns before it left and on all the observations of the pass. |
| `Dispatch.Scheduler.StartBackground` | gpu_watcher/scheduler.py:280-286 | A launch is requested exactly if the task has a best plan and no queued regular task of higher priority may use its worker. |
| `Dispatch.Scheduler.DispatchBackground` | gpu_watcher/scheduler.py:275-286 | Every background task of the queue window gets its turn in queue order, on all the observations of the pass. |
| `Dispatch.Scheduler.DispatchQueuedTasks` | gpu_watcher/scheduler.py:216-286 | A whole pass is its three walks and nothing else, on worker states that one probe of every enabled worker and one more after each successful preemption reported, recorded for the conditions of the waiting and the elastic tasks; attempts come by non-increasing priority, only attempted or background tasks are started, only tasks that ran before the pass are killed, none twice or after its start; options and identities stay. |
| `Dispatch.Scheduler.ProbeWorkers` | gpu_watcher/scheduler.py:374-388 | Every enabled worker is probed once, in order; its answer or silence is on record in its health and its GPUs' histories, and only answering workers enter the pass. |
| `Dispatch.Scheduler.RefreshTask` | gpu_watcher/scheduler.py:125-158 | The exit file is read first; a code found there finishes the task; only if there is none does the session decide, and only a session confirmed missing counts as lost. What the workers did before each question, and their answers, are on record. |
| `Dispatch.Scheduler.RefreshRunningTasks` | gpu_watcher/scheduler.py:114-162 | Every listed running task has such a turn, where the one before it ended, unless its worker failed to answer earlier in the round; no row changes otherwise, and nothing is killed or started. |
| `Refresh.ProbesContinue` | gpu_watcher/scheduler.py:123-138 | After a failed probe of a worker no further probe of it is recorded in the round. |
| `WorkerHealth.OutagesAlternate` | gpu_watcher/scheduler.py:172-198 | Over any probe outcomes, a synced worker's outage and recovery batches strictly alternate, beginning with an outage; one is open exactly while the stored state is offline. |
| `WorkerHealth.AlternatesExactly` | gpu_watcher/store.py:277-301 | The batches of a worker alternate if and only if it has a row or at most one probe of it failed. |
| `WorkerHealth.HealthTable.MarkUnreachable` | gpu_watcher/scheduler.py:172-186 | Records the failed probe and keeps the emitted batches equal to what the recorded probes imply. |
| `Dispatch.Scheduler.UpdateTask` | gpu_watcher/scheduler.py:303-305 | With valid options an edit succeeds exactly on existing paused or queued tasks, and leaves every other task's schedules alone. |
| `Dispatch.Scheduler.StartTask` | gpu_watcher/scheduler.py:288-301 | Succeeds exactly on paused and queued tasks, queues the paused one, and runs a pass: its log, requests and probes are the pass's; otherwise nothing changes. |
| `Dispatch.Scheduler.PauseTask` | gpu_watcher/scheduler.py:325-342 | Queued tasks are paused at once, running ones exactly when their kill succeeds, others not at all. |
| `Dispatch.Scheduler.RerunTask` | gpu_watcher/scheduler.py:344-353 | Only a failed task returns to the queue, and a pass follows: its log, requests and probes are the pass's. |
| `Dispatch.Scheduler.CancelTask` | gpu_watcher/scheduler.py:355-366 | Cancels every task that is not terminal, requesting a kill for a running one but not waiting for its success. |
| `Dispatch.Scheduler.ApplySchedules` | gpu_watcher/scheduler.py:61-112 | Each row is treated by its own schedules alone: a due stop shuts out a start; a claimed stop of a running task requests its kill and pauses it exactly if the kill succeeds; the claim is recorded either way; nothing else is requested. |
| `Schedules.DueStopPauses` | gpu_watcher/scheduler.py:74-112 | A due stop that has not fired in this minute pauses a queued task, and a running one whose kill succeeds; only the stop is recorded. |
| `Schedules.DueStartQueues` | gpu_watcher/scheduler.py:74-91 | A due start that has not fired in this minute queues a paused task unless a stop is due too; only the start is recorded. |
| `Dispatch.Scheduler.Tick` | gpu_watcher/scheduler.py:54-59 | Schedules, refresh and dispatch in this order, each as its own row here states; the log, every kill and launch request, every answer and every probe comes from one of them; each task's recorded triggers advance by the claim rule. |
| `Triggers.EachMinuteFiresOnce` | gpu_watcher/store.py:659-673 | For ticks at non-decreasing times a stop fires exactly once in each matching minute that has a tick, a start exactly once in each matching minute without a matching stop. |
| `Triggers.StopWins` | gpu_watcher/scheduler.py:61-80 | A start never fires in a minute in which the stop matches too. |
| `Ticks.ClaimsOncePerMinute` | gpu_watcher/scheduler.py:61-80 | On the task tables: after creation or edit of a task, a tick claims a trigger if and only if it wins its minute and no earlier tick fell in that minute, whatever lies between the ticks but an edit of this task. |
| `Ticks.SchedulesKeptTwice` | gpu_watcher/scheduler.py:288-366 | Any number of controls between ticks keep the options and recorded triggers of every task they do not edit, as each control does. |
| `Triggers.ClaimIsTickClaim` | gpu_watcher/store.py:659-673 | The table's claim guard and update are those of the firing rule. |
| `Dispatch.Scheduler.NoTaskRunsTwice` | gpu_watcher/scheduler.py:37-59 | In every state the scheduler's methods reach, no task has two live sessions, and only running tasks, or canceled ones whose kill failed, have one. |
| `ConnectionPool.Pool.Take` | gpu_watcher/store.py:37-42 | The locked section of an acquire: refuse when closed, else lend the idle connection or report that there is none. |
| `ConnectionPool.Pool.GiveBack` | gpu_watcher/store.py:68-75 | The locked section of a release: keep the connection if it is clean, the store open and no other idle, else close it. |
| `ConnectionPool.ReturnedIsLentNext` | gpu_watcher/store.py:37-75 | A connection returned clean to an open, empty pool is the next one lent. |
| `ConnectionPool.OtherwiseReturnedIsClosed` | gpu_watcher/store.py:68-75 | Any other return closes it and leaves what is lent next as it was. |
| `ConnectionPool.Pool.Close` | gpu_watcher/store.py:26-35 | Closes every idle connection once and lends no more. |
| `ConnectionPool.BorrowedExclusively` | gpu_watcher/store.py:37-75 | Over every interleaving no connection is held by two operations, at most one is idle, and it has no uncommitted work. |
| `ConnectionPool.ClosedStoreLeaksNothing` | gpu_watcher/store.py:26-75 | Once the store is closed and all borrowers have returned, every connection ever opened is closed. |
| `ConnectionPool.ClosedStaysClosed` | gpu_watcher/store.py:31-42 | After a close no step lends a connection from the pool or puts one back. |

## Left out

* Event log rows, messages, log tails, callbacks and IM notifications: they do not change a task's status.
* SSH, tmux and nvidia-smi command lines, the text of the task script, PTY and log streaming; only their effect on
  sessions, exit files and reported GPUs is modelled.
* The HTTP API, the CLI, authentication, the web interface and configuration files.
* Schema migration, JSON columns, paging and search of the task list.
* Changing a worker's configuration during a run (`update_worker`), and the branches for a running task whose worker
  is no longer configured: with fixed workers the invariant excludes them.
* The branch of a start that finds its row no longer queued and kills the session it launched: with one operation at a
  time the row cannot change in between.
* Validity of time zone names and daylight saving: local time is any function.
* The fields of a task that only its command sees (name, command, environment, directory, log mode).
* `fail_start`, which nothing calls.
* Whether preemption across ticks makes progress: a task with `min_free_seconds` may preempt, not start, and preempt
  again at the next tick.
