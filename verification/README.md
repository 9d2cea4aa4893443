# Verified model of the task orchestrator

This project models the planning and control-plane core of the task orchestrator in Dafny and
proves what that code promises. Run `dafny verify dfyconfig.toml` to check everything.

## What is modelled

**Optimizer.** `Reservations` holds the earliest-start searches. `OptimizerModel` says what a feasible
plan is. `ConstraintIndex` builds the eligibility index. `ExactSearch` is the branch-and-bound search,
once as a function over the tree and once as the procedure that updates an incumbent in place.
`PruningExact` and `PruningTight` settle when the bound is valid. `SearchFeasible` and
`SearchCoverage` say what a returned plan is like, `SearchObjective` what it optimises and `SearchOrder`
which candidates a task has and in which order. `Formulation` compiles a model into placement
options. `LinearRows` builds the CP-SAT rows (terms accumulate) and the MIP rows (coefficients are
set). `RowsMeaning`, `RowsAndPlans` and `SearchRows` prove that the rows mean "feasible plan".

**Scheduler.** `SchedulerModel` and `SchedulerPlan` hold the workflow state, the actor ranking and
what a safe and maximal plan is. `SchedulerVisit` and `Scheduler` treat one visit of a task and whole
rounds. `SchedulerRun` is the imperative planner. Iteration over hash containers is a
nondeterministic choice there, so its contracts hold for every iteration order. `SchedulerTie` shows
where that order decides the plan, `SchedulerRerun` that a running task can be planned again.
`SchedulerMeaning` and `PlanMeaning` state order, choice and plan on the inputs alone.

**Orchestrator.** `PlannerFsm` is the state machine with its mirrored state. `Orchestration` gives
every call as a step on the state and proves what all runs keep; in it the scheduler's result is
arbitrary. `Orchestrator` is the object, whose methods take exactly those steps. `Dispatching` states
what each step does to the lists and tables of the state.

**Control plane.** `Protocol` holds the messages. `HistoryLog`, `WorkflowStore` and `SqliteStore` are
the tables. `RuntimeService` is the in-memory runtime with its event streams, `RuntimeAnswers` what it
answers. `ControlPlane` is the service as a state machine: a step is one call, or one pull on an event
stream, which a consumer may drop at any yield. `ControlPlaneMeaning` states what each step leaves in a
record. `ControlPlaneHistory`, `Idempotency` and `Announcements` hold over its runs; `HistoryLosses` says
exactly when a history is lost and gives the shortest run for each way. `ControlPlanService` is the
object. `UpdateFeed` is the bounded feed with cursor readers.

`Basics` holds the shared vocabulary: identifiers, sort keys, sorting and sums.

## What the proofs assume

Optimizer: ids are unique, durations are positive and demands are not negative; what a search returns
is a partition of the tasks, covers the mandatory ones and starts from time zero on for any durations.
Mutex lists are symmetric, because each planner checks the later task's own list. Every plan of the
scheduler is safe for every input with unique ids; that it is also maximal needs demands that are not
negative and resumable tasks that are out of flight. Times, capacities and costs are unbounded integers
or exact numbers.

Control plane: the state machine has any number of streams open, each with its own copy of the record
as in the code. The results on histories are per workflow. They are for runs that are careful with that
workflow (`ControlPlaneHistory.CarefulRun`): a call rewrites its record only while none of its streams is
under way, and if it is stored, it is submitted again only with `replace_existing`. What happens to other
workflows does not matter. The first condition is exactly what a step needs to keep the invariant
(`HistoryLosses.RewritingSoundIff`); the second is needed unless there is nothing to lose
(`ResubmitCompleteIff`, `ResubmitKeepsRowsIff`).

The results on an idempotency key need only that no stream under way holds the key once it is recorded,
and that no prune takes its row (`Idempotency.RecordedKeyStays`); the first is exactly what the row needs
to stay over all runs (`RecordedKeyStaysIff`). That all keys stay apart is another, stronger invariant,
which a step keeps exactly if the key of its request is held by no stream (`StepKeepsKeysIff`).

## Where the code does less than one might expect

- Pruning is exact only up to a weight (priority times priority weight) of 1,000,000 per task. One
  unit above, a two-task model loses its better plan (`PruningTight`).
- A schedule that starts before time zero, in a window that ends before one duration has passed, is no
  option of the formulation (`SearchRows.RowsAdmitExactlyFeasiblePlans`).
- For a task that depends on itself the MIP rows overwrite their own coefficients and admit it; the
  CP-SAT rows do not (`RowsAndPlans.CpVersusMip`).
- The exact backend takes windows in the given order and may start later than necessary. The lists for
  which it never does, and always agrees with the scheduler, are those in which no window overtakes an
  earlier-listed one (`Reservations.FirstFitLeastIff`, `ExactAgreesWithScheduler`).
- Earliest deadline first leaves ties to hash-set order, and the plan with them
  (`SchedulerTie.EarliestDeadlineIsNotDetermined`).
- A pause, resume, cancel, note or recovery while a stream of the workflow is under way is undone in part:
  the stream's own copy of the record takes the audit counter back
  (`HistoryLosses.AuditThenPullCompleteIff`, `PauseUnderWayLosesAudit`). A second stream on the workflow has
  its events overwritten by the first (`StaleStreamOverwritesIff`, `SecondStreamLosesEvent`).
- Submitting a stored workflow again without `replace_existing` restarts its counters
  (`HistoryLosses.ResubmitCompleteIff`) and overwrites event row 1 (`ResubmitKeepsRowsIff`). The
  runtime treats the missing flag as true, the control plane as false.
- Marking an in-flight task resumable makes a running task pending again, and the scheduler plans it a
  second time (`Orchestration.ResumableStaysIdleIff`, `SchedulerRun.RunningTaskIsPendingIff`,
  `SchedulerRerun.RunningTaskIsPlannedAgain`). The plan is safe all the same.
- Two workflows whose streams overlap under one idempotency key overwrite each other's record
  (`Idempotency.TwoSubmissionsRewrite`).
- A prune can open a gap in a history whose clock went back (`HistoryLosses.PruneOpensGap`).

## Model

| member | source | states |
|---|---|---|
| Basics.TextLessMeaning | task_orchestrator/src/core/scheduler.cpp:323-326 | one identifier is less than another iff it stops or has the smaller character where they first differ |
| Reservations.HasCapacityForInterval | task_orchestrator/src/core/scheduler.cpp:221-232 | true exactly when the reserved demand plus the new demand stays within capacity at every instant of the interval |
| Reservations.EarliestStart | task_orchestrator/optimizer_backend/indexed_exact/indexed_exact_backend.cpp:113-134 | the loop returns what the recursive search over windows in the given order returns |
| Reservations.FirstFitSoundComplete | task_orchestrator/optimizer_backend/indexed_exact/indexed_exact_backend.cpp:113-134 | for windows in any order the start found fits, and nothing is found only when no start fits |
| Reservations.FirstFitLeast | task_orchestrator/optimizer_backend/indexed_exact/indexed_exact_backend.cpp:121-132 | with windows ordered by start, the start found is the least that fits |
| Reservations.FirstFitOutOfOrder | task_orchestrator/optimizer_backend/indexed_exact/indexed_exact_backend.cpp:121-132 | with windows out of order the exact backend can return a later start than the least: a concrete pair of windows |
| Reservations.FirstFitLeastIff | task_orchestrator/optimizer_backend/indexed_exact/indexed_exact_backend.cpp:121-132 | a start found is the least one for every query iff no window admits a run at a time that an earlier-listed window admits only later |
| Reservations.EarliestStartSorted | task_orchestrator/src/core/scheduler.cpp:234-257 | the sorting version returns the first fit over the windows sorted by start |
| Reservations.FirstFitOfOrderings | task_orchestrator/src/core/scheduler.cpp:242-243 | which of the orderings with equal starts the sort picks makes no difference |
| Reservations.EarliestFitLeastAndComplete | task_orchestrator/src/core/scheduler.cpp:234-257 | the scheduler's search returns the least start at or after the release that fits one window with capacity at every instant, and nothing iff there is none, for unsorted and overlapping windows |
| Reservations.ExactAgreesWithScheduler | task_orchestrator/optimizer_backend/indexed_exact/indexed_exact_backend.cpp:113-134 | both searches return the same for every query iff no window overtakes an earlier-listed one; windows listed by start are such |
| Reservations.FitsShrinks | task_orchestrator/src/core/scheduler.cpp:210-232 | a further reservation never makes a start fit that did not fit before |
| ConstraintIndex.BuildIndex | task_orchestrator/src/optimizer/constraint_index.cpp:61-83 | the index agrees with the plain filter: for each task the listed actors are exactly those that pass the id and type tests, once each unless the task repeats an id |
| ConstraintIndex.EligibleActors | task_orchestrator/src/optimizer/constraint_index.cpp:10-57 | one task's list holds exactly the actors that pass the filter, on each of the three branches |
| ConstraintIndex.UniqueOfSorted | task_orchestrator/src/optimizer/constraint_index.cpp:47-49 | after sorting by id, dropping adjacent duplicates leaves each actor once |
| ExactSearch.DropDescendantsIfBlocked | task_orchestrator/optimizer_backend/indexed_exact/indexed_exact_backend.cpp:225-239 | the loop computes the fixpoint of the drop sweep |
| ExactSearch.CollectReady | task_orchestrator/optimizer_backend/indexed_exact/indexed_exact_backend.cpp:141-162 | returns the ready tasks in the order of the sort key |
| ExactSearch.CandidatesForTask | task_orchestrator/optimizer_backend/indexed_exact/indexed_exact_backend.cpp:164-223 | returns the sorted candidates, none when a mutex task is scheduled |
| ExactSearch.Incumbent.Offer | task_orchestrator/optimizer_backend/indexed_exact/indexed_exact_backend.cpp:294-311 | the incumbent is replaced exactly when the leaf is strictly better |
| ExactSearch.Dfs | task_orchestrator/optimizer_backend/indexed_exact/indexed_exact_backend.cpp:269-335 | the recursive procedure that updates the incumbent in place computes the bounded exploration of the tree |
| ExactSearch.Solve | task_orchestrator/optimizer_backend/indexed_exact/indexed_exact_backend.cpp:243-263 | returns the plan of the bounded exploration from the root, and fails without entries iff it found none |
| PruningExact.FullIsFold | task_orchestrator/optimizer_backend/indexed_exact/indexed_exact_backend.cpp:293-335 | without the bound the search offers every leaf of the tree to the incumbent in order |
| PruningExact.FoldIsFirstBest | task_orchestrator/optimizer_backend/indexed_exact/indexed_exact_backend.cpp:84-87 | offering leaves in order ends with the first of the best ones |
| PruningExact.BoundHolds | task_orchestrator/optimizer_backend/indexed_exact/indexed_exact_backend.cpp:278-291 | no leaf below a node scores better than the node's optimistic score, if no task weighs more than the bound assumes |
| PruningExact.PruningIsExact | task_orchestrator/optimizer_backend/indexed_exact/indexed_exact_backend.cpp:269-335 | then the pruned search returns the same assignments and unfulfilled ids as the search without pruning, and no leaf of the whole tree scores better |
| PruningTight.PrunedDiffersFromFull | task_orchestrator/optimizer_backend/indexed_exact/indexed_exact_backend.cpp:18-18 | with two mutually exclusive tasks of weight 1,000,001 pruning returns the worse plan |
| PruningTight.ExactIffWithinBound | task_orchestrator/optimizer_backend/indexed_exact/indexed_exact_backend.cpp:278-291 | pruning is exact for all models whose tasks weigh at most `limit` iff `limit` is at most 1,000,000 |
| SearchObjective.SearchOptimisesObjective | task_orchestrator/optimizer_backend/indexed_exact/indexed_exact_backend.cpp:64-87 | no leaf of the tree has more tasks than the plan returned; of those with as many none has a larger sum of priority times weight; of those none ends earlier; and the plan is the first such leaf. With the bound this needs weights within it |
| SearchObjective.ScoreIsObjective | task_orchestrator/optimizer_backend/indexed_exact/indexed_exact_backend.cpp:64-87 | one leaf scores better than another iff its plan is preferable in this sense |
| SearchOrder.ReadyTasksOrder | task_orchestrator/optimizer_backend/indexed_exact/indexed_exact_backend.cpp:155-160 | ready tasks come by higher priority, earlier deadline (none counts as the end of time), earlier release, shorter duration, lesser id |
| SearchOrder.CandidatesOrder | task_orchestrator/optimizer_backend/indexed_exact/indexed_exact_backend.cpp:217-220 | candidates come with preferred actors first, then by earlier end, earlier start, shorter distance, smaller load, lesser actor id |
| SearchOrder.CandidateIsLeastAdmitted | task_orchestrator/optimizer_backend/indexed_exact/indexed_exact_backend.cpp:173-199 | an actor's candidate starts where the plan so far admits the task; over windows in a useful order nowhere earlier, and there is none only if no start is admitted |
| SearchOrder.CandidatesAreComplete | task_orchestrator/optimizer_backend/indexed_exact/indexed_exact_backend.cpp:164-223 | a ready task has a candidate on an actor iff the actor is eligible, no task it excludes is planned, and the plan so far admits it there at some time |
| SearchOrder.CandidateInFields | task_orchestrator/optimizer_backend/indexed_exact/indexed_exact_backend.cpp:200-214 | a candidate tells its end, its listed distance, whether the actor is preferred, and the demand on the actor at its start |
| SearchOrder.LeavesExplainDrops | task_orchestrator/optimizer_backend/indexed_exact/indexed_exact_backend.cpp:225-239 | unless partial plans are allowed, a leaf drops a mandatory task only behind another dropped task |
| SearchFeasible.SearchIsFeasible | task_orchestrator/optimizer_backend/indexed_exact/indexed_exact_backend.cpp:164-223 | every plan returned is feasible: each task placed where it may run, within capacity at every instant, after its dependencies, never beside a mutex task |
| SearchFeasible.LeavesSound | task_orchestrator/optimizer_backend/indexed_exact/indexed_exact_backend.cpp:314-334 | reservations, completion times and assignments agree and the schedule is sound at every leaf |
| SearchFeasible.ReturnsLeaf | task_orchestrator/optimizer_backend/indexed_exact/indexed_exact_backend.cpp:269-335 | the result is the incumbent passed in or the plan of a leaf of the tree, with and without pruning |
| SearchFeasible.SearchPartitionsTasks | task_orchestrator/optimizer_backend/indexed_exact/indexed_exact_backend.cpp:300-307 | assigned and unfulfilled ids partition the tasks, each once, for any durations and index |
| SearchFeasible.SolveSucceeds | task_orchestrator/optimizer_backend/indexed_exact/indexed_exact_backend.cpp:257-262 | `solve` finds a plan iff the tree has a leaf, hence always with partial plans allowed or no task mandatory |
| SearchCoverage.DropFixIsLeastClosed | task_orchestrator/optimizer_backend/indexed_exact/indexed_exact_backend.cpp:225-239 | the drop loop ends with the least set above the dropped tasks that is closed under blocking |
| SearchCoverage.LeafCoverage | task_orchestrator/optimizer_backend/indexed_exact/indexed_exact_backend.cpp:293-312 | with closed acyclic dependencies each leaf has every task either scheduled or dropped |
| SearchCoverage.MandatoryTasksAreScheduled | task_orchestrator/optimizer_backend/indexed_exact/indexed_exact_backend.cpp:330-334 | without partial plans, and mandatory tasks depending on mandatory tasks only, every returned plan schedules all mandatory tasks |
| Formulation.LatestFeasibleStart | task_orchestrator/src/optimizer/discrete_time_formulation.cpp:66-78 | a start passes the window's end, the latest start and the deadline iff it is at most the result |
| Formulation.BuildFormulation | task_orchestrator/src/optimizer/discrete_time_formulation.cpp:94-197 | the options are exactly the placements allowed by the plain filter, windows, release, latest start and deadline; each slot row lists exactly the options of that actor that cover the instant; dependencies, mutex pairs and horizon are exact |
| Formulation.AddWindow | task_orchestrator/src/optimizer/discrete_time_formulation.cpp:130-157 | one window adds exactly its feasible starts and registers each with every instant it covers |
| Formulation.AddMutexes | task_orchestrator/src/optimizer/discrete_time_formulation.cpp:170-181 | each unordered pair is added once |
| Formulation.OptionIsPlacement | task_orchestrator/src/optimizer/discrete_time_formulation.cpp:110-158 | for starts at or after zero an option is exactly a placement that the exact search may choose |
| RowsAndPlans.DecodeSelectedOptions | task_orchestrator/src/optimizer/discrete_time_formulation.cpp:199-245 | decoding lists the chosen options by start, end, task and actor, and the ids of all other tasks as unfulfilled in model order, each once |
| LinearRows.BuildCpSatRows | task_orchestrator/optimizer_backend/ortools_cp_sat/ortools_cp_sat_backend.cpp:87-130 | builds exactly the selection, capacity, dependency and mutex rows, and all of them |
| LinearRows.BuildMipRows | task_orchestrator/optimizer_backend/commercial_mip/commercial_mip_backend.cpp:157-207 | builds exactly the MIP rows, where setting a coefficient again overwrites it |
| RowsMeaning.EvalTerms | task_orchestrator/optimizer_backend/ortools_cp_sat/ortools_cp_sat_backend.cpp:88-96 | an accumulated expression evaluates to the sum over the chosen options of its list |
| RowsMeaning.BigMMeaning | task_orchestrator/optimizer_backend/ortools_cp_sat/ortools_cp_sat_backend.cpp:116-124 | the presence and big-M row together hold iff a chosen successor has a chosen predecessor that ends no later than it starts |
| RowsMeaning.MipDependencyMeaning | task_orchestrator/optimizer_backend/commercial_mip/commercial_mip_backend.cpp:177-198 | the MIP dependency rows mean the same for two different tasks |
| RowsMeaning.MipSelfDependencyIsVoid | task_orchestrator/optimizer_backend/commercial_mip/commercial_mip_backend.cpp:183-197 | for a task that depends on itself the MIP rows constrain nothing, because the coefficients are overwritten |
| RowsAndPlans.CpRowsMeanChoice | task_orchestrator/optimizer_backend/ortools_cp_sat/ortools_cp_sat_backend.cpp:87-130 | a 0/1 choice satisfies all CP-SAT rows iff it selects, fits, orders and excludes as required |
| RowsAndPlans.MipRowsMeanChoice | task_orchestrator/optimizer_backend/commercial_mip/commercial_mip_backend.cpp:157-207 | a choice satisfies all MIP rows iff it does so except for tasks that depend on themselves |
| RowsAndPlans.CpVersusMip | task_orchestrator/optimizer_backend/commercial_mip/commercial_mip_backend.cpp:177-198 | the CP-SAT rows admit a choice iff the MIP rows do and no self-dependent task is chosen |
| RowsAndPlans.BackendsDiffer | task_orchestrator/optimizer_backend/commercial_mip/commercial_mip_backend.cpp:183-197 | a choice that the MIP rows admit and the CP-SAT rows do not, for the formulation of a concrete model with one task that names itself as a dependency |
| RowsAndPlans.BackendsAgree | task_orchestrator/optimizer_backend/commercial_mip/commercial_mip_backend.cpp:157-207 | on a built formulation both backends admit the same choices if no task depends on itself |
| RowsAndPlans.SlotSumIsLoad | task_orchestrator/optimizer_backend/ortools_cp_sat/ortools_cp_sat_backend.cpp:107-114 | the left side of a slot row is the load that the decoded schedule puts on the actor at that instant |
| RowsAndPlans.RowsMeanFeasible | task_orchestrator/optimizer_backend/ortools_cp_sat/ortools_cp_sat_backend.cpp:87-130 | a choice satisfies the rows iff the decoded schedule is feasible and covers the required tasks |
| SearchRows.FeasiblePlanHasChoice | task_orchestrator/src/optimizer/discrete_time_formulation.cpp:110-158 | every schedule of placements in such windows, one per task, is the decoding of a choice |
| SearchRows.RowsAdmitExactlyFeasiblePlans | task_orchestrator/optimizer_backend/ortools_cp_sat/ortools_cp_sat_backend.cpp:87-130 | exactly the feasible schedules that cover the required tasks, and whose every entry lies in a window that ends no earlier than one duration, are decodings of choices that the rows admit |
| SearchFeasible.SearchStartsFromZero | task_orchestrator/optimizer_backend/indexed_exact/indexed_exact_backend.cpp:185-192 | no run starts before time zero, whatever the releases, durations and index say |
| SearchRows.SearchReturnsAdmittedChoice | task_orchestrator/optimizer_backend/indexed_exact/indexed_exact_backend.cpp:164-334 | every plan of the exact search is the decoding of a choice that the CP-SAT and the MIP rows admit, for any releases |
| SchedulerModel.FallbackDistance | task_orchestrator/src/core/scheduler.cpp:80-86 | zero without distances, else the largest distance plus the padding |
| SchedulerModel.CompareCandidates | task_orchestrator/src/core/scheduler.cpp:280-328 | the first criterion on which two candidates differ decides for the smaller start, finish, distance, cost or load, the higher utilisation, or the preferred actor; if they differ on none, the lesser actor id |
| SchedulerModel.VerdictNamesFirstDifference | task_orchestrator/src/core/scheduler.cpp:280-328 | the index returned is that of the first criterion on which the candidates differ |
| SchedulerModel.RankingIsStrictTotalOrder | task_orchestrator/src/core/scheduler.cpp:280-328 | for every criteria list the ranking is a strict total order on candidates of distinct actors |
| SchedulerPlan.OpaqueCoversLoad | task_orchestrator/src/core/scheduler.cpp:379-393 | at the planning time the initial reservations amount to the larger of the in-flight demand and the recorded load |
| SchedulerPlan.MaximalOfPermutation | task_orchestrator/src/core/scheduler.cpp:642-645 | sorting the plan keeps it maximal |
| SchedulerPlan.SafeOfPermutation | task_orchestrator/src/core/scheduler.cpp:642-645 | sorting the plan keeps it safe |
| SchedulerVisit.StartIsFreeSlot | task_orchestrator/src/core/scheduler.cpp:504-532 | the start tried on an actor is the first free slot against everything under way and planned, and there is none when no start passes |
| SchedulerVisit.BestIsUnique | task_orchestrator/src/core/scheduler.cpp:505-545 | at most one candidate is the minimum of all offers, so the choice is canonical |
| SchedulerVisit.NoOfferIsNoSlot | task_orchestrator/src/core/scheduler.cpp:615-618 | a task is given up only when no allowed available actor has a slot |
| SchedulerVisit.SlotFreeShrinks | task_orchestrator/src/core/scheduler.cpp:626-631 | planning a further task never opens a slot for one that had none |
| SchedulerVisit.BestWins | task_orchestrator/src/core/scheduler.cpp:280-328 | the minimum of the offers wins against every other at the first criterion on which they differ |
| SchedulerMeaning.OfferInFields | task_orchestrator/src/core/scheduler.cpp:504-545 | an offer starts at the first slot that is free next to all that is under way and planned |
| SchedulerMeaning.OfferPrice | task_orchestrator/src/core/scheduler.cpp:330-348 | its load is the in-flight, unexplained and planned demand on the actor at that start, its utilisation that load over the capacity, its cost the rate times the duration |
| SchedulerMeaning.OfferDistance | task_orchestrator/src/core/scheduler.cpp:259-278 | a distance listed at run time replaces the one of the process; an actor that is not listed is one further than the farthest; the run-time list of preferred actors replaces that of the process |
| SchedulerMeaning.DemandInFields | task_orchestrator/src/core/scheduler.cpp:350-395 | the demand on an actor is that of its in-flight tasks, plus from now on the reported load they do not explain, plus the plan |
| SchedulerMeaning.EarliestDeadlineOrder | task_orchestrator/include/task_orchestrator/strategy/edf_strategy.hpp:12-25 | of two ready tasks the one with the higher priority stands first, then the one with a deadline, then the one with the earlier deadline |
| SchedulerMeaning.FirstInFirstOutOrder | task_orchestrator/include/task_orchestrator/strategy/fifo_strategy.hpp:12-19 | ready tasks stand by phase, then by id |
| SchedulerMeaning.ShortestJobOrder | task_orchestrator/include/task_orchestrator/strategy/sjf_strategy.hpp:12-22 | the shorter task stands first, then the one with the higher priority, then the lesser id |
| SchedulerMeaning.PriorityOnlyOrder | task_orchestrator/include/task_orchestrator/strategy/priority_only_strategy.hpp:12-19 | the task with the higher priority stands first, then the lesser id |
| SchedulerMeaning.TiesUnderEarliestDeadline | task_orchestrator/include/task_orchestrator/strategy/edf_strategy.hpp:12-25 | two tasks tie iff they agree on priority and deadline |
| SchedulerMeaning.TurnTakesBestOffer | task_orchestrator/src/core/scheduler.cpp:597-635 | each task of a round gets the best offer that is left when its turn comes |
| SchedulerMeaning.UrgentTaskIsServedFirst | task_orchestrator/src/core/scheduler.cpp:597-635 | under earliest deadline first a ready task more urgent than every other gets its best offer against what was planned before the round |
| PlanMeaning.PendingInFields | task_orchestrator/src/core/scheduler.cpp:88-129 | pending are exactly the tasks of phases that are not completed and whose dependencies are, that are neither completed nor unresumable, nor in flight unless resumable |
| PlanMeaning.DescriptionInFields | task_orchestrator/src/core/scheduler.cpp:105-126 | a pending task has the duration, priority, release, deadline, latest start and demand of its process, or 1, 0, 0, none, none and 1 |
| PlanMeaning.ActorInFields | task_orchestrator/src/core/scheduler.cpp:154-208 | an actor may take a task iff it is available, on the allow-list given at run time or else by the process, and has the kind, the capabilities and the capacity |
| PlanMeaning.TimesInFields | task_orchestrator/src/core/scheduler.cpp:176-181 | a start is timely iff it is not in the past, not before the release given at run time or else by the process, within latest start and deadline, and after every dependency |
| PlanMeaning.DoneInFields | task_orchestrator/src/core/scheduler.cpp:397-440 | a task is done by an instant iff it is planned to end by then, in flight and expected to, or completed by then |
| PlanMeaning.LeftOutInFields | task_orchestrator/src/core/scheduler.cpp:597-640 | a task left out excludes one that is done, in flight or planned, or waits for one that is none of these, or has no slot on any actor that may take it |
| PlanMeaning.ExclusionInFields | task_orchestrator/src/core/scheduler.cpp:442-447 | no entry excludes a task that is completed, in flight or planned, when pending tasks exclude each other both ways |
| PlanMeaning.AnswerInFields | task_orchestrator/src/core/scheduler.cpp:144-152 | planning fails, without entries, iff a pending task is preemptible; the entries come by start, task and actor |
| SchedulerRun.CollectPendingTasks | task_orchestrator/src/core/scheduler.cpp:88-129 | collects exactly the tasks of ready phases that are not done, not in flight unless resumable, and not unresumable |
| SchedulerRun.RunningTaskIsPendingIff | task_orchestrator/src/core/scheduler.cpp:89-102 | an in-flight task of a ready phase is pending iff it is marked resumable |
| SchedulerRerun.RunningTaskIsPlannedAgain | task_orchestrator/src/core/scheduler.cpp:88-129 | a planning call whose only round plans a running task, marked resumable, a second time |
| SchedulerRun.InitializeReservations | task_orchestrator/src/core/scheduler.cpp:350-395 | in-flight intervals of every owner, topped up by the opaque demand of registered actors |
| SchedulerRun.InitializeCompletionTimes | task_orchestrator/src/core/scheduler.cpp:397-425 | each completed or in-flight task has its actual, planned or estimated completion |
| SchedulerRun.SelectBestCandidate | task_orchestrator/src/core/scheduler.cpp:490-546 | in whatever order actors are visited, returns the offer that wins against every other at the first criterion on which they differ, or nothing iff there is no offer |
| SchedulerRun.VisitTask | task_orchestrator/src/core/scheduler.cpp:597-635 | one visit strikes the task or places it at its best offer |
| SchedulerRun.CollectReadyTasks | task_orchestrator/src/core/scheduler.cpp:469-488 | returns the ready tasks in an order that the strategy allows |
| SchedulerRun.PlanRound | task_orchestrator/src/core/scheduler.cpp:589-640 | for every input one round keeps the plan safe; with the table well formed it keeps the whole invariant, and without progress nothing that remains is ready |
| SchedulerRun.PlanLoop | task_orchestrator/src/core/scheduler.cpp:589-640 | for every input the loop ends with a safe plan; with the table well formed the plan is also maximal |
| SchedulerRun.PlanPending | task_orchestrator/src/core/scheduler.cpp:564-646 | for every input and iteration order of the hash containers the plan is sorted and safe; with no negative demand and resumable tasks out of flight it is maximal; when no two pending tasks tie under the strategy it is the one specified plan |
| SchedulerRun.Plan | task_orchestrator/src/core/scheduler.cpp:550-647 | collects the pending tasks of the given state and returns such a plan over them |
| SchedulerRun.PlanIsDetermined | task_orchestrator/src/core/scheduler.cpp:449-488 | with each task in one phase and pending tasks whose keys differ under the strategy, any two runs on the same inputs return the same plan |
| Scheduler.VisitKeeps | task_orchestrator/src/core/scheduler.cpp:597-635 | placing or striking a task keeps entries timely, within capacity, exclusive, and each struck task without a place |
| Scheduler.NoProgressLeavesNothingReady | task_orchestrator/src/core/scheduler.cpp:637-639 | a round without progress leaves no ready task, so stopping early loses nothing |
| Scheduler.NothingReadyIsMaximal | task_orchestrator/src/core/scheduler.cpp:592-594 | when no remaining task is ready the plan is maximal |
| Scheduler.VisitIsSafe | task_orchestrator/src/core/scheduler.cpp:597-635 | for every input one visit keeps what safety needs |
| Scheduler.SafeSoFarIsSafe | task_orchestrator/src/core/scheduler.cpp:620-633 | no task twice; each entry in one window and in time; within capacity with in-flight and opaque demand; dependencies finished; no mutex pair when the lists are symmetric |
| Scheduler.OrderIsDeterminedIff | task_orchestrator/src/core/scheduler.cpp:449-467 | every set of pending tasks has one ready order iff no two pending tasks have equal keys under the strategy |
| Scheduler.TaskIdsTellApart | task_orchestrator/src/core/scheduler.cpp:449-467 | which holds under every strategy but earliest deadline first, since the others compare the task id last |
| SchedulerTie.EarliestDeadlineIsNotDetermined | task_orchestrator/src/core/scheduler.cpp:469-488 | a planning call with two tied tasks whose only round ends with one planned or with the other, by the order of the hash set |
| SchedulerTie.TieDecidesThePlan | task_orchestrator/src/core/scheduler.cpp:597-635 | of two tied tasks that exclude each other, either order is allowed and the first is planned |
| PlannerFsm.PlannerStateMachine.ProcessEvent | task_orchestrator/src/core/planner_fsm.cpp:84-132 | each guarded overload moves the machine and its mirror alike, as the transition table says, and ignores events the state has no row for |
| Dispatching.EventsMove | task_orchestrator/src/core/planner_fsm.cpp:84-132 | where each event leads from each state |
| Dispatching.DispatchInFields | task_orchestrator/src/core/orchestrator.cpp:66-100 | in flight afterwards are the tasks that were, and exactly those with an entry that is due, whose dependencies are all completed and that are neither completed nor unresumable; nothing else of the planner changes |
| Dispatching.DispatchRecords | task_orchestrator/src/core/orchestrator.cpp:84-97 | a task newly in flight is recorded with the actor, start and end of such an entry and is no longer resumable |
| Dispatching.TickInFields | task_orchestrator/src/core/orchestrator.cpp:134-158 | a tick plans when idle, planning or asked to replan, otherwise dispatches, and does nothing before the start |
| Dispatching.StartInFields | task_orchestrator/src/core/orchestrator.cpp:128-132 | the start plans at once and waits to dispatch iff the plan is ok and has entries |
| Dispatching.FailureInFields | task_orchestrator/src/core/orchestrator.cpp:174-198 | a failed task is neither in flight nor completed and has no owner; it is resumable, and a replan asked for, iff it can resume, else unresumable; nothing is said of other tasks |
| Dispatching.CompletionInFields | task_orchestrator/src/core/orchestrator.cpp:200-220 | a completed task is done at the reported time and has no owner, a replan is asked for, and nothing is said of other tasks |
| Dispatching.MarkInFields | task_orchestrator/src/core/orchestrator.cpp:222-229 | a mark makes the task resumable and asks for a replan; a running task goes on running |
| Dispatching.AvailabilityInFields | task_orchestrator/src/core/orchestrator.cpp:160-172 | an actor is listed iff it was reported unavailable last, and a replan is asked for iff that changed |
| Dispatching.PhaseInFields | task_orchestrator/src/core/orchestrator.cpp:231-241 | a phase is listed once; with the last one the planner is idle, before that it runs, unless it was idle |
| Orchestration.ClampNeverTruncates | task_orchestrator/src/core/orchestrator.cpp:178-188 | in every state that runs reach, an owner's load is at least the demand that is released |
| Orchestration.StepKeeps | task_orchestrator/src/core/orchestrator.cpp:134-241 | every call keeps: load is initial load plus the demand of owned tasks, load overrides mirror it, owners are exactly the in-flight tasks, the task sets stay apart, and dispatching implies an ok non-empty schedule |
| Orchestration.RunFromFreshKeeps | task_orchestrator/src/core/orchestrator.cpp:66-241 | the same over every run from a fresh orchestrator, whatever the scheduler returned |
| Orchestration.ResumableStaysIdleIff | task_orchestrator/src/core/orchestrator.cpp:222-229 | a call keeps resumable tasks out of flight iff it does not mark an in-flight task resumable |
| Orchestration.RunKeepsResumableIdle | task_orchestrator/src/core/orchestrator.cpp:174-229 | they stay apart over every run in which no in-flight task is marked resumable |
| Orchestrator.Orchestrator.RunPlan | task_orchestrator/src/core/orchestrator.cpp:26-32 | stores the scheduler's result for the current state and fires the event only for an ok non-empty one |
| Orchestrator.Orchestrator.StartUp | task_orchestrator/src/core/orchestrator.cpp:128-132 | takes the specified start step |
| Orchestrator.Orchestrator.ApplyDispatches | task_orchestrator/src/core/orchestrator.cpp:66-100 | dispatches every due entry that is not blocked, in order, then leaves the dispatching state |
| Orchestrator.Orchestrator.TickNow | task_orchestrator/src/core/orchestrator.cpp:134-158 | takes the specified tick step in each planner state |
| Orchestrator.Orchestrator.NotifyTaskFailed | task_orchestrator/src/core/orchestrator.cpp:174-198 | takes the specified failure step |
| Orchestrator.Orchestrator.NotifyTaskCompleted | task_orchestrator/src/core/orchestrator.cpp:200-220 | takes the specified completion step |
| Orchestrator.Orchestrator.MarkTaskResumable | task_orchestrator/src/core/orchestrator.cpp:222-229 | takes the specified step |
| Orchestrator.Orchestrator.MarkPhaseComplete | task_orchestrator/src/core/orchestrator.cpp:231-241 | takes the specified step |
| Orchestrator.Orchestrator.SetActorUnavailable | task_orchestrator/src/core/orchestrator.cpp:160-172 | takes the specified step |
| Orchestrator.LatestScheduleIsSafe | task_orchestrator/src/core/orchestrator.cpp:26-32 | at every point of every run, whatever was marked resumable, an ok latest schedule is safe for the state in which it was made, and maximal if no in-flight task had been marked resumable and no demand is negative |
| HistoryLog.PruneSuffix | control_plane/src/store/sqlite_workflow_store.cpp:723-735 | pruning a chronological contiguous history leaves a contiguous chronological one that ends at the counter |
| HistoryLog.PruneSuffixIff | control_plane/src/store/sqlite_workflow_store.cpp:723-735 | every cutoff leaves a contiguous history contiguous iff, below the newest row, a row of an earlier boot comes after none of the current boot and none younger |
| WorkflowStore.PruneSuffixForIff | control_plane/src/store/sqlite_workflow_store.cpp:717-764 | every prune leaves all three histories of a workflow contiguous iff each of them is in that order |
| ControlPlaneHistory.RunKeepsSuffixes | control_plane/src/store/sqlite_workflow_store.cpp:717-764 | whatever the clock does, over every run that is careful with a workflow and whose prunes meet its histories in that order, each of them is a contiguous stretch that ends at the counter |
| HistoryLosses.PruneOpensGap | control_plane/src/store/sqlite_workflow_store.cpp:723-735 | a run whose clock goes back once, with a restart under another boot id and a prune, ends in a gap |
| HistoryLog.SuffixIsStretch | control_plane/src/store/sqlite_workflow_store.cpp:508-534 | a retained suffix holds every number from any retained one up to the counter |
| WorkflowStore.GrowthKeeps | control_plane/src/store/sqlite_workflow_store.cpp:478-612 | appending rows under new numbers keeps the heads, overwrites nothing, keeps complete histories complete and plan versions equal to the fully ok responses |
| WorkflowStore.PruneKeeps | control_plane/src/store/sqlite_workflow_store.cpp:717-764 | a prune keeps the newest event, plan and audit row of a workflow |
| WorkflowStore.PruneContiguous | control_plane/src/store/sqlite_workflow_store.cpp:717-764 | a prune keeps the histories of a workflow contiguous stretches up to their counters |
| WorkflowStore.PruneInFields | control_plane/src/store/sqlite_workflow_store.cpp:717-764 | a prune deletes exactly the rows of other boots recorded before the cutoff, except the newest row of each history and rows of workflows without a record, and the rows of old keys |
| SqliteStore.SqliteWorkflowStore.UpsertWorkflow | control_plane/src/store/sqlite_workflow_store.cpp:293-340 | replaces one record and nothing else |
| SqliteStore.SqliteWorkflowStore.InsertEvent | control_plane/src/store/sqlite_workflow_store.cpp:478-506 | inserts or replaces one event row stamped with the current boot id |
| SqliteStore.SqliteWorkflowStore.InsertPlanVersion | control_plane/src/store/sqlite_workflow_store.cpp:536-556 | inserts or replaces one plan row |
| SqliteStore.SqliteWorkflowStore.InsertAuditEntry | control_plane/src/store/sqlite_workflow_store.cpp:587-612 | inserts or replaces one audit row |
| SqliteStore.SqliteWorkflowStore.PutIdempotencyRecord | control_plane/src/store/sqlite_workflow_store.cpp:643-664 | inserts or replaces the row of one key |
| SqliteStore.SqliteWorkflowStore.PruneStaleBootData | control_plane/src/store/sqlite_workflow_store.cpp:717-774 | deletes exactly the old rows of other boots below each counter, and keeps the heads |
| SqliteStore.SqliteWorkflowStore.ListEvents | control_plane/src/store/sqlite_workflow_store.cpp:508-534 | lists the newest `limit` rows (all when 0) oldest first, which on a contiguous history are the last numbers up to the counter |
| SqliteStore.ListNumbers | control_plane/src/store/sqlite_workflow_store.cpp:526-533 | the numbers listed are the highest ones, in increasing order |
| RuntimeService.InMemoryWorkflowRuntime.StreamSubmit | application/runtime_service/src/in_memory_runtime_service.cpp:74-124 | stores the session unless refused, and yields the specified events |
| RuntimeService.InMemoryWorkflowRuntime.StreamReorchestrate | application/runtime_service/src/in_memory_runtime_service.cpp:126-210 | applies the overrides in order to a known session, and yields the specified events |
| RuntimeService.SubmitEndsWithResponse | application/runtime_service/src/in_memory_runtime_service.cpp:74-124 | in every case exactly one event carries a response, and it is the last |
| RuntimeService.ReorchestrateEndsWithResponse | application/runtime_service/src/in_memory_runtime_service.cpp:126-210 | in every case exactly one event carries a response, and it is the last |
| RuntimeService.FinalResponseIsLast | application/runtime_service/src/in_memory_runtime_service.cpp:54-62 | the unary form returns the response of the last event |
| RuntimeAnswers.SubmitAnswers | application/runtime_service/src/in_memory_runtime_service.cpp:74-124 | a refused submission changes nothing and says why; any other is stored, announced, and answered with the plan of its configuration, entry by entry, and the optimizer's result |
| RuntimeAnswers.ReorchestrateAnswers | application/runtime_service/src/in_memory_runtime_service.cpp:126-210 | a refused request changes nothing and says why; any other edits the stored configuration, tells each override, and answers with an empty result if told not to plan, else with the plan and result of the configuration that the session holds afterwards |
| RuntimeAnswers.OverridesEditInOrder | application/runtime_service/src/in_memory_runtime_service.cpp:148-155 | the configuration left behind comes from the stored one by every task override in order, then every actor override in order |
| ControlPlanService.ControlPlanService.RecordEvent | control_plane/src/service/control_plan_service.cpp:207-246 | recording an event table by table takes the specified step and suspends the stream |
| ControlPlanService.ControlPlanService.StreamSubmitWorkflow | control_plane/src/service/control_plan_service.cpp:161-247 | the first pull answers from the idempotency table or opens the workflow and records the first event |
| ControlPlanService.ControlPlanService.StreamReorchestrate | control_plane/src/service/control_plan_service.cpp:249-369 | the first pull refuses, hydrates, replays or records the first event, in that order of checks |
| ControlPlanService.ControlPlanService.PullStream | control_plane/src/service/control_plan_service.cpp:328-368 | a further pull records and hands out the next event, or ends the stream |
| ControlPlanService.ControlPlanService.ControlWorkflow | control_plane/src/service/control_plan_service.cpp:434-526 | pause, resume and cancel set the state and append one audit |
| ControlPlanService.ControlPlanService.ApplyManualIntervention | control_plane/src/service/control_plan_service.cpp:528-576 | appends an audit and runs the re-orchestration stream to its end, as a run of the state machine |
| ControlPlanService.ControlPlanService.RecoverActiveWorkflows | control_plane/src/service/control_plan_service.cpp:100-141 | takes one recovery step for each stored workflow |
| ControlPlaneMeaning.PullInFields | control_plane/src/service/control_plan_service.cpp:61-86 | after a pull the record has the state of the event's kind, planned after a finished run iff response and result are ok and failed otherwise, with the latest response, its error and the counters; the response is recorded under the key |
| ControlPlaneMeaning.SubmitInFields | control_plane/src/service/control_plan_service.cpp:184-247 | a submission starts from the stored record only with `replace_existing`, else from an empty one, and records the runtime's first event in it |
| ControlPlaneMeaning.DrainedSubmission | control_plane/src/service/control_plan_service.cpp:61-86 | a submission pulled to its end leaves the workflow planned iff the runtime took it and its plan was ok, else failed |
| ControlPlaneMeaning.DrainedSubmissionRecovers | control_plane/src/service/control_plan_service.cpp:100-141 | and after a restart recovery takes it up iff it succeeded, with its configuration |
| ControlPlaneMeaning.RecoverInFields | control_plane/src/service/control_plan_service.cpp:100-141 | recovery takes up every stored workflow that is not cancelled, failed or without a state, audits it and submits its configuration |
| ControlPlaneMeaning.ControlInFields | control_plane/src/service/control_plan_service.cpp:434-526 | pause, cancel and resume set the state, the last to planned iff the latest response was ok and else to submitted, and append the named audit |
| ControlPlaneMeaning.NoteInFields | control_plane/src/service/control_plan_service.cpp:528-548 | a note is audited and changes nothing else |
| ControlPlaneMeaning.RefusalInFields | control_plane/src/service/control_plan_service.cpp:249-282 | a re-orchestration of an unknown, paused or cancelled workflow or at another plan version is refused, in this order, and changes nothing |
| ControlPlaneMeaning.HydrationInFields | control_plane/src/service/control_plan_service.cpp:284-299 | a workflow new to the process is submitted again; it counts as present iff the runtime took and planned it |
| ControlPlaneMeaning.NotTakenInFields | control_plane/src/service/control_plan_service.cpp:300-307 | a workflow that the runtime does not take is refused and nothing stored changes |
| ControlPlaneMeaning.ReplayInFields | control_plane/src/service/control_plan_service.cpp:309-325 | a key with a row is answered with the recorded response, or refused if the request differs |
| ControlPlaneMeaning.ReorchestrationInFields | control_plane/src/service/control_plan_service.cpp:328-369 | any other re-orchestration records the first event of the runtime in the stored record |
| ControlPlaneHistory.StepKeeps | control_plane/src/service/control_plan_service.cpp:183-246 | every step that is careful with a workflow, whatever it does to others, only appends to its histories: heads kept, nothing overwritten, completeness and contiguity kept |
| HistoryLosses.RewritingSoundIff | control_plane/src/service/control_plan_service.cpp:434-548 | a call that rewrites a record keeps records and streams in step iff no stream of the workflow is under way |
| HistoryLosses.AuditThenPullCompleteIff | control_plane/src/service/control_plan_service.cpp:434-548 | after an audited call, the next pull on a stream of the workflow leaves its histories complete iff that stream has no events left |
| HistoryLosses.PauseUnderWayLosesAudit | control_plane/src/service/control_plan_service.cpp:434-461 | submit, pause, pull from a new store: the history is incomplete, and the next audit overwrites the one of the pause |
| HistoryLosses.StaleStreamOverwritesIff | control_plane/src/service/control_plan_service.cpp:207-244 | after a second stream on the workflow was opened, a pull on the first loses no row iff that stream is over or its next row equals the newest; the counter stands still either way |
| HistoryLosses.SecondStreamLosesEvent | control_plane/src/service/control_plan_service.cpp:161-246 | submit twice with `replace_existing` to a new store, then pull on the first stream: an event of the second is overwritten |
| ControlPlaneHistory.RunKeepsHeads | control_plane/src/store/sqlite_workflow_store.cpp:717-764 | for every interleaving of calls, pulls, prunes and restarts that is careful with a workflow, its newest event, plan and audit row is in the store |
| ControlPlaneHistory.RunIsExact | control_plane/src/service/control_plan_service.cpp:183-246 | without a prune, over every run that is careful with a workflow, its event, plan and audit numbers are exactly `1..counter`, nothing written for it is changed, and plan version i is the i-th fully ok response |
| ControlPlaneHistory.NewStoreStaysExact | control_plane/src/service/control_plan_service.cpp:183-246 | from a new store, every run without a prune leaves the histories of every workflow it is careful with complete |
| ControlPlaneHistory.RunIsContiguous | control_plane/src/store/sqlite_workflow_store.cpp:717-764 | with prunes anywhere, nondecreasing times and fresh boot ids, each history of a workflow is a contiguous chronological stretch that ends at the counter |
| HistoryLosses.ResubmitCompleteIff | control_plane/src/service/control_plan_service.cpp:184-200 | submitting a stored workflow again leaves its history complete iff `replace_existing` is set or there was at most one event and no plan or audit; otherwise the event counter restarts at 1 |
| HistoryLosses.ResubmitKeepsRowsIff | control_plane/src/service/control_plan_service.cpp:184-200 | it overwrites no row iff `replace_existing` is set, or there is no event yet, or the new first row equals the stored one |
| HistoryLosses.ResubmitLosesHistory | control_plane/src/service/control_plan_service.cpp:184-200 | submit, pull, drop the stream, submit again: the history is incomplete and the first event row overwritten |
| Idempotency.PullKeepsKeys | control_plane/src/service/control_plan_service.cpp:227-235 | the response recorded under a key is the one handed out, with the request's fingerprint, and no other row changes |
| Idempotency.StepKeepsKeysIff | control_plane/src/service/control_plan_service.cpp:161-181 | a step keeps recorded and held keys apart iff the key of a request that reaches the runtime is held by no stream under way, and then it rewrites no recorded row |
| Idempotency.SubmitKeepsKeysIff | control_plane/src/service/control_plan_service.cpp:166-235 | the same for a submission that is not answered from the table |
| Idempotency.ReorchestrateKeepsKeysIff | control_plane/src/service/control_plan_service.cpp:309-358 | the same for a re-orchestration that reaches the runtime |
| Idempotency.RecordedKeyStays | control_plane/src/service/control_plan_service.cpp:227-235 | over every run, whatever other streams overlap, the row of a key that no stream under way holds stays as it is until it is pruned |
| Idempotency.RecordedKeyStaysIff | control_plane/src/service/control_plan_service.cpp:227-235 | a recorded row outlasts every run that does not prune it iff no stream under way holds its key at the start |
| Idempotency.RunKeepsKeys | control_plane/src/service/control_plan_service.cpp:161-181 | keys stay apart over every run whose requests reach the runtime only with a key that no stream under way holds |
| Idempotency.RecordingSettles | control_plane/src/service/control_plan_service.cpp:227-235 | the pull that records a key leaves no stream under way that holds it, in a state that keeps keys apart |
| Idempotency.RunKeepsStreams | control_plane/src/service/control_plan_service.cpp:161-247 | over every run each open stream has its own handle and ends with its only response |
| Idempotency.SubmitIsIdempotent | control_plane/src/service/control_plan_service.cpp:166-181 | however much later, and however other streams overlap, a submit with such a key changes nothing at all: the same payload gets the recorded response, any other is rejected |
| Idempotency.OverlappingStreamsRewrite | control_plane/src/service/control_plan_service.cpp:311-326 | two streams under way with one key: the later response replaces the earlier |
| Idempotency.TwoSubmissionsRewrite | control_plane/src/service/control_plan_service.cpp:166-235 | the run of six steps from a new store that ends in the rewrite |
| Announcements.StepTells | control_plane/src/service/control_plan_service.cpp:578-583 | every step that changes a workflow's record or history leaves an update about it as the newest in the feed |
| UpdateFeed.PublishRetains | control_plane/src/service/workflow_update_feed.cpp:23-35 | the retained ids are always the last min(latest, limit) ones without a gap |
| UpdateFeed.WaitIsNext | control_plane/src/service/workflow_update_feed.cpp:42-61 | a reader gets an update iff the feed is up and one is newer than its cursor: the next id, or the oldest left |
| UpdateFeed.ReaderSeesEverythingRetained | control_plane/src/service/workflow_update_feed.cpp:23-61 | under every interleaving a reader sees strictly increasing published ids and misses only evicted ones |
| UpdateFeed.ReaderCatchesUp | control_plane/src/service/workflow_update_feed.cpp:42-61 | once publishing stops a reader reaches the latest id in at most as many reads as the feed retains, and is given every update it could still get |
| UpdateFeed.ReaderNeedsAllReads | control_plane/src/service/workflow_update_feed.cpp:42-61 | no smaller number of reads suffices |
| UpdateFeed.ShutdownIsFinal | control_plane/src/service/workflow_update_feed.cpp:51-53 | after shutdown no reader is given anything |
| UpdateFeed.WorkflowUpdateFeed.Append | control_plane/src/service/workflow_update_feed.cpp:23-35 | publishing assigns the next id and trims the queue to the limit |
| UpdateFeed.WorkflowUpdateFeed.WaitForUpdate | control_plane/src/service/workflow_update_feed.cpp:42-61 | waiting returns the first retained update after the cursor |

## Left out

- ControlPlaneHistory.RunIsExact: does not cover calls on the workflow while a stream of it is under way and its resubmission without `replace_existing`, because the code then loses rows; the exact conditions are proved in `HistoryLosses`.
- Idempotency.SubmitIsIdempotent: does not cover a recorded key that a stream under way still holds, because that stream rewrites the row; `RecordedKeyStaysIff` is the exact condition.
- SchedulerRun.PlanIsDetermined: does not cover pending tasks with equal keys, because the plan then depends on hash-set order.
- Orchestration.RunFromFreshKeeps: does not cover replacing the workflow or registering actors during a run, because both reset what the invariant counts.
- Global optimality of the exact backend: it branches only on the first ready task and one start per actor, so the claim is about its own tree.
- Objective coefficients, makespan variables, time and gap limits and the solvers themselves: foreign code behind the rows.
- Search statistics, the ranking criterion stored per assignment, and the execution cost and tardiness kept with exact-search candidates: nothing reads them when choosing a plan.
- The successor table of the constraint index: no modelled code looks at it.
- Looking a process up by task and expanding sub-processes: the workflow is a table from task to process.
- Scheduling strategies beyond the four built-in ones, and lazy planning.
- Order of slot rows, of dependency edges between equal keys and of recovered workflows: only the contents are stated.
- Integer width: sums, times and counters do not overflow in the model; floating-point utilisation is compared exactly.
- Capacity at dispatch time: dispatching follows the last schedule without a check, so an overrunning task can exceed capacity.
- What overrides do to a configuration, authentication rules and planning inside the runtime: parameters of the model, applied in the order of the code.
- Row counts returned by a prune, storage metrics, paging and search of workflows, plan comparison, and the plan and audit listings, which mirror the event listing.
- Threads: calls interleave step by step, and a wait on the feed is its result at the moment it wakes up.
- Crash points between two writes of one step, hash collisions of request fingerprints, the clock, and database internals.
- A promise that re-orchestration replays its key: the state and plan-version checks run before the table is asked.
- Transports, configuration loading, command line, logging, the operator interface, the controlled-language parser and the registries.
