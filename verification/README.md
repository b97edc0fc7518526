# Stage Runner: the dispatch protocol, verified

Stage Runner executes workflows. A workflow is a set of stages with declared dependencies; a run of it
is driven by four parties that share a database, a queue and a resource store:

- clients ask the workflow service for runs, standing rules and cancellations;
- the scheduler re-derives from the tables, on every tick, what to dispatch next;
- a worker pops one message, resolves the pinned inputs, runs the stage with retries and reports back;
- the resource store keeps every uploaded version of every resource, and at most one current version.

This project models that system and proves what its documentation promises, for every history: no stuck
run, exactly-once dispatch, inputs that are coherent across ticks, completion that is honest, cancellation
that is final, lineage that is exact and acyclic, versions that are kept for ever. Where the code falls
short of a promise the exact condition is proved under which it keeps it.

## How it is built

| layer | files |
|---|---|
| stages, graphs, algorithms | `Stages`, `Graphs`, `Dag`, `DagLayout` |
| the resource store and its stand-in | `StorageUris`, `Ledgers`, `ResourceStore`, `ResourceClient` |
| one stage execution | `Runner`, `Worker` |
| tables, queue and services, in place | `Tables`, `TableStore`, `Scheduler`, `WorkflowService` |
| the tick and the requests as functions | `Ticks`, `Control` |
| facts about one tick | `Evolution`, `Dispatching`, `RunInvariants`, `Completion`, `TickInvariants`, `Honesty`, `Isolation`, `Liveness` |
| the protocol and its histories | `Protocol`, `ProtocolSafety`, `Guarantees`, `Provenance`, `Verdicts`, `Bounds`, `Stuck`, `LockStep`, `IntakeFacts`, `Recurrence`, `Requests`, `Promotion`, `Failures`, `Examples` |
| the feed workflow | `Feed` |

Objects that the services update in place are classes with those fields. Each method is proved against a
function on the abstract state: `Poller.PollOnce` leaves the tables exactly as `Tick` says, the service
methods leave them as the functions of `Control` say, `Worker.ProcessMessage` performs a sequence of
protocol steps from `Popped` to `Reported`, and the resource store's tables refine a map from names to
append-only histories (`Rep`). `Protocol.Step` is the union of all these steps on one world; `Inv` is
inductive (`ProtocolSafety.StepInv`), and the theorems of the protocol layer hold in every `Behavior`.
`Examples` holds the histories that show what the code does not promise, each of them a `Behavior` too.

Conventions: one tick is atomic with one clock reading, one upload is atomic, and promoting or recording
dependencies either takes effect or fails without effect. A row's id is its position. An absent
`input_versions` is the empty map, an absent output is 0, times are integers, scores are reals. A run's
workflow has one registry throughout; `start_from` is absent or the name of something. Version numbers in
`input_versions` are not negative; the services accept any integer there, but no version has a negative one.

## What turned out different from what the documentation says

- *Exactly one of version and error is set* (services/runner/src/runner.py:26-27) holds if and only if
  the stage's retry count is not negative (`OutcomeOk` in `Runner`). With a negative count no attempt is
  made and the stage run is reported as completed without a version; `Guarantees.EndToEndLineage` gives
  both cases, `Examples.CompletedWithoutOutput` is a history with the second one.
- *Fallback keeps going* (services/scheduler/src/poller.py:35-39) covers one failure per run: only the
  first failed stage run is papered over. A second failure can leave a run waiting for ever, and so can a
  range that needs a registered stage which is neither reachable nor pinned, even if nothing fails.
  `Liveness.StuckExactly` characterises the waiting runs that a tick leaves where they are, for every
  request; `Examples.TwoFailuresGetStuck` and `Examples.MissingPinGetsStuck` are histories that end in one
  of either kind, and `StuckRuns.StuckInHistory` shows that only a cancellation ends such a run.
- No document says what *completed* means for a run whose pins name stages that the run itself executes. A
  pin makes its stage count as done (services/scheduler/src/poller.py:194-195), so such a run can be called
  completed (services/scheduler/src/poller.py:242-243) with that stage unfinished: `Examples.PinHidesStage`
  is a history in which the only stage was just requested. `Honesty.HonestExactly` gives the exact condition
  on the request under which this cannot happen, and `Guarantees.CompletionIsSettled` what holds for every
  request.
- An invalid value *never becomes current* (README.md:70): `promote` itself checks nothing.
  `Guarantees.PromoteKeepsValidIff` and `Guarantees.SafePromotion` show that a client promoting an
  invalid version is the one and only step that breaks this; `Examples.InvalidBecomesCurrent` is a history
  that contains it.
- The in-memory resource client promises the store's own contract (lib/resource_store_client.py:78-82),
  but promotes versions that do not exist: `ResourceClients.PromoteAgreesIff`.

## Model

| member | source | states |
|---|---|---|
| `Stages.RegisteredIsAssignment` | lib/stages.py:51-54 | registering a stage is assigning one dictionary key; names stay distinct and no other stage changes |
| `Stages.StageRegistry.Stage` | lib/stages.py:51-56 | registration in place, as that assignment |
| `Dag.TopologicalOrderCorrect` | lib/dag.py:27-52 | fails if and only if the in-graph dependency relation has a cycle, self-loops included; otherwise every stage stands strictly after its registered dependencies, external names ignored |
| `Dag.TopologicalOrderPermutes` | lib/dag.py:27-52 | the order is a permutation of the stages |
| `Dag.OrderedIsFixed` | lib/dag.py:27-52 | stages that are declared in dependency order come out exactly as declared |
| `Dag.TopologicalSort.VisitName` | lib/dag.py:34-47 | the nested visit over shared sets does what the recursive search does, and ends because the names in progress grow |
| `Dag.ComputeTopologicalOrder` | lib/dag.py:49-52 | the loop over all stages returns that order, or detects the cycle |
| `Dag.ReachableIsDependents` | lib/dag.py:66-71 | being a transitive dependent of the start is the recursive condition that the search evaluates |
| `Dag.ReachableIsClosed` | lib/dag.py:55-58 | whatever depends on a reachable stage is reachable |
| `Dag.Reachability.DependsOnStart` | lib/dag.py:64-71 | whatever was asked before, every memoised answer is right, despite the short-circuiting any |
| `Dag.Reachability.AllDependents` | lib/dag.py:73 | asking every stage in any order collects exactly the dependents |
| `Dag.ComputeReachableFrom` | lib/dag.py:55-73 | the reflexive-transitive dependents of a registered start, an error for any other |
| `DagLayout.DepthIsLongestPath` | services/web/src/dagLayout.js:6-9 | the depth of a stage is the length of a longest dependency path from it |
| `DagLayout.DepthsAreUnique` | services/web/src/dagLayout.js:6-9 | a graph has at most one depth assignment |
| `DagLayout.StageDepths.DepthOf` | services/web/src/dagLayout.js:14-20 | the memoised recursion with its guard ends on every graph and settles only right depths on acyclic ones |
| `DagLayout.ComputeStageDepths` | services/web/src/dagLayout.js:10-24 | on an acyclic graph the result is the depth assignment |
| `DagLayout.GraphLayout` | services/web/src/dagLayout.js:32-58 | every column in full, by depth and in declaration order; externals once each, sorted, in an extra leftmost one; all dependency pairs as edges |
| `DagLayout.ColumnInOrder` | services/web/src/dagLayout.js:42-50 | a column shows exactly the stages of its depth, in registration order, each with its own retries and dependencies |
| `DagLayout.ExternalsLeftmost` | services/web/src/dagLayout.js:36-43 | the leftmost column begins with the externals, without dependencies, and no other node is external |
| `DagLayout.EdgesCount` | services/web/src/dagLayout.js:52-57 | a pair is drawn exactly as often as the stage lists the dependency |
| `DagLayout.BeforeExactly` | services/web/src/dagLayout.js:36-38 | the order of the externals: at the first difference the earlier name has ended or has the smaller character |
| `DagLayout.LevelOfName` | services/web/src/dagLayout.js:42-50 | each name is drawn in one level only |
| `DagLayout.EdgesGoRight` | services/web/src/dagLayout.js:52-57 | every drawn edge goes strictly rightwards |
| `LockStep.TickDispatchesDepth` | services/scheduler/src/poller.py:220-243 | with all shallower stages done a tick dispatches exactly the stages of the next depth, and completes the run when there is none |
| `LockStep.TickDeepens` | services/scheduler/src/poller.py:78-83 | a whole tick, whatever else it does, leaves such a run with stage runs for exactly the stages down to that depth, even if it has only just taken the run in |
| `LockStep.TickIsDepth` | services/web/src/dagLayout.js:1-4 | in every history in which the stages of a full run complete between ticks, the k-th tick after the request gives a stage its stage run if and only if its computed depth is k, and completes the run if and only if nothing is that deep |
| `StorageUris.StorageUriInjective` | services/resource_store/src/service.py:28-29 | no two versions share a blob address |
| `StorageUris.StorageUriShows` | services/resource_store/src/service.py:28-29 | the address shows the name and the version number, in decimal without leading zeros |
| `Ledgers.AppendAt` | services/resource_store/src/service.py:40-83 | an upload adds exactly one version, at the end of one history; every other version and every current version stays as it is |
| `Ledgers.LinkLineage` | services/resource_store/src/service.py:85-99 | recording older versions as dependencies keeps all lineage pointing to older versions |
| `ResourceStore.UploadRep` | services/resource_store/src/service.py:68-79 | the id, index and blob tables after an upload stand for the history with one more version |
| `ResourceStore.NextIsNext` | services/resource_store/src/memory.py:48-50 | the number computed from the index is the length of the history plus one, so versions are exactly 1..n |
| `ResourceStore.LinkRep` | services/resource_store/src/memory.py:88-92 | the dependency table after an update stands for the relinked history |
| `ResourceStore.PromoteRep` | services/resource_store/src/memory.py:94-97 | the current version id names a version of its own resource, although no foreign key enforces it |
| `ResourceStore.LinksOf` | services/resource_store/src/service.py:120-123 | dependency ids lead back to the recorded names and versions |
| `ResourceStore.InMemoryMetadataRepository.GetOrCreateResource` | services/resource_store/src/memory.py:32-42 | finds the one row of a name, or adds it |
| `ResourceStore.InMemoryMetadataRepository.NextVersion` | services/resource_store/src/memory.py:48-50 | one more than the largest number in the index |
| `ResourceStore.InMemoryMetadataRepository.RecordVersion` | services/resource_store/src/memory.py:52-75 | adds the version row and its index entry under a fresh id |
| `ResourceStore.ResourceStoreService.UploadVersion` | services/resource_store/src/service.py:40-83 | persists every value of a declared resource, valid or not, as its next version; reports the rejection; promotes nothing |
| `ResourceStore.ResourceStoreService.UpdateDependencies` | services/resource_store/src/service.py:85-99 | takes effect if and only if all the versions named exist |
| `ResourceStore.ResourceStoreService.PromoteVersion` | services/resource_store/src/service.py:101-104 | makes any existing version current, fails without effect for any other |
| `ResourceStore.ResourceStoreService.Get` | services/resource_store/src/service.py:108-118 | returns the very value that was uploaded as that version, or as the current one |
| `ResourceStore.ResourceStoreService.Dependencies` | services/resource_store/src/service.py:120-123 | returns the recorded pairs in order |
| `ResourceStore.ResourceStoreService.RequireAll` | services/resource_store/src/service.py:95-98 | the ids of all upstream versions, or an error if one is missing |
| `ResourceClients.UploadAgrees` | lib/resource_store_client.py:91-96 | the stand-in's upload is the store's upload of a valid value |
| `ResourceClients.PromoteAgreesIff` | lib/resource_store_client.py:101-102 | its promotion behaves like some store if and only if the version exists |
| `ResourceClients.InMemoryResourceClient.UploadVersion` | lib/resource_store_client.py:91-96 | version numbers count from 1 as in the store |
| `ResourceClients.InMemoryResourceClient.Get` | lib/resource_store_client.py:104-109 | answers like the store |
| `Runner.StageRunner.ResolveInputs` | services/runner/src/runner.py:71-76 | once, in order: the pinned version of each dependency that has a pin, the current one of any other, an error if one is missing; the stage gets exactly its dependencies, each at the value of the very version that goes into the lineage |
| `Runner.ValuesAreInputs` | services/runner/src/runner.py:71-76 | the same for every ledger, list of dependencies and pins, also when a dependency is listed twice |
| `Runner.StageRunner.Persist` | services/runner/src/runner.py:85-89 | upload, dependencies and promotion of one attempt, as protocol steps; reports a rejection by the contract |
| `Runner.StageRunner.Finalize` | services/runner/src/runner.py:86-88 | after an upload neither the dependencies nor the promotion can fail: the version ends up linked to exactly the inputs, and current if asked |
| `Runner.StageRunner.RunStage` | services/runner/src/runner.py:47-93 | at most retries + 1 attempts, all earlier ones failed, all with the same inputs; the error is the one of the last attempt; exactly one of version and error if and only if retries are not negative; the store holds what those attempts leave |
| `Runner.StageRunner.RunAttempts` | services/runner/src/runner.py:78-93 | the retry loop: every attempt sees the same inputs, and the error is what the last one raised or what its contract answered |
| `Runner.AfterFailuresKeeps` | services/runner/src/runner.py:82-93 | failed attempts change no current version, lose nothing and append at most one version each |
| `Runner.AfterFailuresExactly` | services/runner/src/runner.py:82-93 | failed attempts leave exactly the values that they returned, in order, each with its verdict |
| `Failures.UploadsBounded` | services/runner/src/runner.py:79-93 | in every history no execution appends more versions than its stage allows attempts, whatever else happens in between |
| `Failures.FailureLeaves` | services/runner/src/runner.py:79-93 | in every history no step of a stage run that ends up failed changed a current version, and together they appended at most retries + 1 versions |
| `Failures.AttemptsReported` | services/runner/src/worker.py:60-73 | in every history a completed stage run shows the number of executor calls that its worker made, a failed one retries + 1 such calls, or 1 without any call if an input did not exist |
| `Runner.AfterSuccessLineage` | services/runner/src/runner.py:84-89 | a success leaves one valid version whose dependencies are exactly the resolved inputs, all older |
| `Workers.Worker.Execute` | services/runner/src/worker.py:54-62 | loading and running the stage; an exception leaves the store untouched |
| `Workers.Worker.ProcessMessage` | services/runner/src/worker.py:37-73 | start, then exactly one of complete and fail; for a genuine message the whole execution is a sequence of protocol steps |
| `Workers.ReportExactly` | services/runner/src/worker.py:52-73 | after the two callbacks the stage run has the status, the attempts and the output that the retry loop came to, and nothing else has changed |
| `Workers.WholeRun` | services/runner/src/worker.py:52-73 | the steps from pop to report, whatever the outcome |
| `Workers.MessagesAreGenuine` | services/scheduler/src/poller.py:225-236 | in every reachable world each message is the one of its stage run and names a declared stage with all its inputs |
| `Workers.WorkerRunIsProtocol` | services/runner/src/worker.py:52-73 | each of them is a step of the whole system, for one and the same job |
| `Workers.Worker.ProcessPopped` | services/runner/src/worker.py:111-143 | what the worker does with a message popped in a reachable world is a sequence of steps of the system, from that world to the one in which it has reported |
| `TableStore.PendingMembers` | services/scheduler/src/memory.py:144-158 | the pending list holds exactly the undispatched, due, uncancelled schedules with their ids |
| `TableStore.DueMembers` | services/scheduler/src/memory.py:164-180 | the due list holds exactly the enabled rules whose time has come |
| `TableStore.ActiveMembers` | services/scheduler/src/memory.py:208-223 | the active list holds exactly the requested and running runs |
| `Tables.RecordsMembers` | services/scheduler/src/memory.py:225-237 | the records of a run are exactly its stage runs with their ids |
| `TableStore.InMemoryScheduleStore.PendingSchedules` | services/scheduler/src/memory.py:144-158 | the query as a loop over the rows |
| `TableStore.InMemoryScheduleStore.StageRunsForWorkflowRun` | services/scheduler/src/memory.py:225-237 | the stage runs of one run in id order |
| `Scheduler.TakeIsIntake` | services/scheduler/src/poller.py:111-122 | dispatching the listed schedules one by one is the intake of all |
| `Scheduler.FireIsRecurring` | services/scheduler/src/poller.py:86-102 | firing the listed rules one by one is the recurring intake of all |
| `Scheduler.SnapshotSuffices` | services/scheduler/src/poller.py:128 | visiting the runs that were active at the start is visiting all runs |
| `Scheduler.Poller.IntakeRecurringSchedules` | services/scheduler/src/poller.py:86-102 | one run per due rule, and its next time |
| `Scheduler.Poller.IntakeSchedules` | services/scheduler/src/poller.py:111-122 | one run per pending schedule, which is marked as dispatched to it |
| `Scheduler.Poller.AdmitRun` | services/scheduler/src/poller.py:133-166 | the checks before any row is read, in their order |
| `Scheduler.Poller.ResolveExternals` | services/scheduler/src/poller.py:203-218 | every external dependency at its current version, or a failure if one has none |
| `Scheduler.Poller.DispatchReady` | services/scheduler/src/poller.py:220-237 | rows and messages for exactly the ready stages, in topological order |
| `Scheduler.Poller.ProgressOne` | services/scheduler/src/poller.py:128-243 | one iteration for one active run |
| `Scheduler.Poller.Progress` | services/scheduler/src/poller.py:125-243 | the loop over the active runs |
| `Scheduler.Poller.PollOnce` | services/scheduler/src/poller.py:78-83 | one poll is one tick of the protocol |
| `WorkflowServices.WorkflowService.RequestRun` | services/workflow_service/src/service.py:111-154 | accepted if and only if the workflow is known and the policy is halt, fallback or absent; then one schedule row with what was asked for, otherwise an error and no change |
| `WorkflowServices.WorkflowService.CreateRecurringSchedule` | services/workflow_service/src/service.py:49-63 | accepted if and only if also exactly one cadence is given, a positive interval or a cron expression that parses; the rule is enabled and its first time is one interval ahead, or what the cron library answers |
| `WorkflowServices.WorkflowService.CancelRecurringSchedule` | services/workflow_service/src/service.py:249-253 | disables the rule of that workflow, keeps the row, changes nothing else |
| `WorkflowServices.WorkflowService.RequestCancel` | services/workflow_service/src/service.py:280-291 | sets the cancellation flag of a requested or running run and nothing else; refuses a terminal one |
| `WorkflowServices.WorkflowService.RequestScheduleCancel` | services/workflow_service/src/service.py:293-305 | sets the cancellation flag of a schedule that was not dispatched yet and nothing else; refuses any other |
| `WorkflowServices.WorkflowService.GetScheduleStatus` | services/workflow_service/src/service.py:156-188 | status and error of the run a schedule became; in reachable states that run is always there |
| `WorkflowServices.WorkflowService.StartStageRun` | services/workflow_service/src/service.py:318-321 | running, whatever the status was |
| `WorkflowServices.WorkflowService.CompleteStageRun` | services/workflow_service/src/service.py:323-330 | completed with that output and number of attempts, whatever the status was; no other row changes |
| `WorkflowServices.WorkflowService.FailStageRun` | services/workflow_service/src/service.py:332-335 | failed with that number of attempts, whatever the status was; no other row changes |
| `Evolution.ProgressRunProgressed` | services/scheduler/src/poller.py:128-243 | progression of a run moves its status forwards, appends its own stage runs and touches no other run |
| `Dispatching.DispatchExactly` | services/scheduler/src/poller.py:220-240 | the new rows and messages are those of the ready stages, in order, and nothing else |
| `Dispatching.NoDispatchOtherwise` | services/scheduler/src/poller.py:129-218 | a run that leaves the loop early gets no stage run and becomes terminal |
| `Dispatching.DoneSources` | services/scheduler/src/poller.py:170-213 | every input version available for dispatch comes from a pin, an own completed output, the fallback or a current external |
| `Verdicts.AdmitsExactly` | services/scheduler/src/poller.py:133-166 | which request is rejected for which reason, in terms of cycles, registered names, reachability and pins; an admitted one has exactly its range, and its own policy or else the default |
| `Verdicts.RejectionFails` | services/scheduler/src/poller.py:133-166 | a rejected run fails for that reason and nothing else changes |
| `Verdicts.FailureDecides` | services/scheduler/src/poller.py:173-188 | the first failed stage run fails the run for that stage, or is marked as papered over, as on_failure and the current versions say |
| `Verdicts.OwnPolicyDecides` | services/scheduler/src/poller.py:176 | a run with a policy of its own progresses alike whatever the default of its workflow |
| `Verdicts.TickDecidesFailure` | services/scheduler/src/poller.py:173-188 | the same for a tick of the whole system, case by case for halt, fallback and no choice |
| `Verdicts.StopCompletes` | services/scheduler/src/poller.py:190-192 | a run whose stop_after stage completed or was papered over is completed and gets no stage run |
| `Verdicts.MissingExternalFails` | services/scheduler/src/poller.py:194-218 | otherwise the run fails if and only if some external dependency of its range has neither a pin nor a current version |
| `Verdicts.LoopDispatches` | services/scheduler/src/poller.py:220-243 | otherwise exactly the stages of the range are dispatched that have no stage run yet and whose dependencies are finished, pinned or external; the run is completed, running or unchanged accordingly |
| `Verdicts.NewRowFields` | services/scheduler/src/poller.py:226-232 | a new stage run is requested, reports nothing yet and inherits the promotion flag |
| `RunInvariants.ProgressOnce` | services/scheduler/src/poller.py:169-237 | a tick never starts a stage of a run twice |
| `RunInvariants.ProgressMessages` | services/scheduler/src/poller.py:226-235 | one message per stage run, with the same inputs |
| `RunInvariants.ProgressSourced` | services/scheduler/src/poller.py:224-235 | the provenance of every pinned input survives a tick |
| `Completion.DependencyFinished` | services/scheduler/src/poller.py:224-235 | a stage run exists only if each registered dependency was pinned, or had completed or visibly fallen back |
| `Completion.AncestorFinished` | services/scheduler/src/poller.py:224-235 | hence everything above a finished stage is finished, as far as nothing was pinned on the way |
| `Completion.NewlyCompleted` | services/scheduler/src/poller.py:190-243 | a tick completes a run, by either exit, only if every reachable stage is finished or pinned, or its last stage with all that it needed unpinned is finished; no assumption on the request |
| `Completion.SettledIsFinished` | services/scheduler/src/poller.py:190-243 | if pins stand only for stages that stop_after does not depend on, that is the whole range, or the last stage with all its reachable ancestors, completed or visibly fallen back |
| `Honesty.HonestExactly` | services/scheduler/src/poller.py:190-243 | for every admitted request: a tick that completes a run of it always leaves its range finished, for all tables that satisfy the invariants, if and only if the request is harmless, a condition on its graph, range, pins and stop_after alone |
| `Honesty.HonestIffPinsHarmless` | services/scheduler/src/poller.py:190-243 | if every dependency is in the range or pinned, that condition is just that no pin stands for a stage that the last stage depends on, or for any stage of the range if there is no last stage |
| `Honesty.HarmlessIsFinished` | services/scheduler/src/poller.py:190-243 | in all tables with the usual provenance, a harmless run that is settled is finished |
| `Isolation.OthersUntouched` | services/scheduler/src/poller.py:128-243 | progression of one run is invisible to every other run |
| `Isolation.OwnEffect` | services/scheduler/src/poller.py:128-243 | its effect depends only on what the run looks like |
| `Isolation.OrderIrrelevant` | services/scheduler/src/poller.py:128 | a tick has the same outcome for every run in any visiting order, up to allocated ids |
| `Liveness.StuckExactly` | services/scheduler/src/poller.py:168-243 | a tick takes a quiet run further or ends it if and only if the run is not stuck: it is stuck if the tick reaches the dispatch loop and every stage not yet started waits for a failure that is not papered over or for an unreachable unpinned stage |
| `Liveness.NoStuckRun` | services/scheduler/src/poller.py:168-243 | with a sensible range and at most one failed stage run a quiet run is always taken further or ended |
| `Liveness.StuckForever` | services/scheduler/src/poller.py:173-188 | a stuck run stays stuck when ticked, whatever current versions change |
| `StuckRuns.EndedIsWaiting` | services/scheduler/src/poller.py:1-33 | in a reachable world every active run whose stage runs have ended is such a quiet run |
| `StuckRuns.TickMovesIff` | services/scheduler/src/poller.py:78-83 | a tick of the whole system takes a quiet run further or ends it if and only if it is not stuck |
| `StuckRuns.StuckInHistory` | services/scheduler/src/poller.py:173-188 | a stuck run stays stuck and gets no stage run in every future in which nobody cancels it |
| `Examples.TwoFailuresGetStuck` | services/scheduler/src/poller.py:173-188 | a history, from the request to two reported failures, that ends in a stuck run |
| `Examples.MissingPinGetsStuck` | services/scheduler/src/poller.py:157-166 | a history without any failure that ends in a stuck run |
| `Examples.PinHidesStage` | services/scheduler/src/poller.py:194-243 | a history that completes a run whose only stage was merely requested |
| `Examples.CompletedWithoutOutput` | services/runner/src/runner.py:78-93 | a history that reports a stage run completed without any attempt or output |
| `Examples.InvalidBecomesCurrent` | services/resource_store/src/service.py:101-104 | a history after which a version that broke its contract is current |
| `TickInvariants.TickInv` | services/scheduler/src/poller.py:78-83 | a whole tick keeps the invariants of the tables |
| `ProtocolSafety.StepInv` | services/scheduler/src/poller.py:1-33 | every step of the protocol keeps the invariant |
| `ProtocolSafety.Reachable` | services/scheduler/src/poller.py:1-33 | the invariant holds in every history |
| `Guarantees.EndToEndLineage` | services/runner/src/runner.py:71-89 | a completed stage run has a valid output whose recorded dependencies are exactly its pinned inputs in order, if and only if its stage allows an attempt |
| `Guarantees.LineageAcyclic` | services/runner/src/runner.py:85-86 | no sequence of runs makes recorded lineage cyclic |
| `Guarantees.VersionsAreForever` | services/resource_store/src/service.py:40-49 | an uploaded version keeps its value, flags and verdict for ever, and a resource once current stays resolvable |
| `Guarantees.ExactlyOnce` | services/scheduler/src/poller.py:221-237 | each run and stage has at most one stage run, each stage run one message, ever |
| `Guarantees.StepMoves` | services/workflow_service/src/service.py:318-335 | although the callbacks check no status, statuses only move forwards and finished rows never change |
| `Guarantees.ReportedForever` | services/runner/src/worker.py:60-73 | what a stage run reported is written once, save for the fallback mark |
| `Guarantees.DiamondCoherence` | services/scheduler/src/poller.py:168-235 | all consumers of one completed stage in a run get the same version, whatever ticks dispatched them |
| `Provenance.TickDispatchesWith` | services/scheduler/src/poller.py:194-225 | each stage run that a tick creates has exactly its dependencies as inputs: the pin, an output that its run had completed before the tick, or for a papered-over stage or an external the version current at this tick |
| `Provenance.PinProvenance` | services/scheduler/src/poller.py:194-225 | every stage run of every history was created by one tick in this way, from the currents of that very moment, and its inputs never change |
| `Provenance.PinnedVersionsExist` | services/scheduler/src/poller.py:194-225 | every version that was pinned as a current one exists in the store for ever |
| `Guarantees.CompletionIsSettled` | services/scheduler/src/poller.py:190-243 | a completed run has every reachable stage finished or pinned, or its last stage with all that it needed unpinned finished, whatever the request |
| `Guarantees.HonestCompletion` | services/scheduler/src/poller.py:190-243 | in every history a completed run of a harmless request has its whole range, or its last stage with all reachable ancestors, completed or visibly fallen back |
| `Guarantees.PromoteKeepsValidIff` | services/resource_store/src/service.py:101-104 | promotion keeps every current version valid if and only if its target is valid |
| `Guarantees.SafePromotion` | services/runner/src/runner.py:85-88 | only a client promoting an invalid version can make one current |
| `Guarantees.CurrentsValidIff` | services/resource_store/src/service.py:101-104 | every current version was valid all along if and only if no client ever promoted an invalid one |
| `Guarantees.FallbackPersists` | services/scheduler/src/poller.py:177-188 | a fallback that succeeded succeeds again on every later tick that still finds that failure first |
| `Promotion.UnaskedNeverPromotes` | services/runner/src/runner.py:87-88 | the workers of a run that does not promote change no current version |
| `Promotion.PartialRunsNeverPromote` | services/scheduler/src/poller.py:105-108 | a partial run from a schedule that left the choice open moves no current version |
| `Promotion.PartialFiringsNeverPromote` | services/scheduler/src/poller.py:88-97 | nor does a partial run that a rule with an open choice spawned, at any later step |
| `Bounds.TickOnRun` | services/scheduler/src/poller.py:78-83 | a whole tick is to an existing run a tick of its own |
| `Bounds.CancelTick` | services/scheduler/src/poller.py:128-131 | the tick that sees a cancellation request cancels the run |
| `Bounds.NoDispatchAfterCancel` | services/scheduler/src/poller.py:128-131 | no stage run is created for a run after its cancellation was requested |
| `Bounds.TerminalForever` | services/scheduler/src/memory.py:242-253 | terminal runs never change, and one whose cancellation was requested is cancelled |
| `Bounds.QuietTicksBounded` | services/scheduler/src/poller.py:168-243 | a run meets at most one more quiet tick than it has reachable stages |
| `IntakeFacts.IntakeOneToOne` | services/scheduler/src/poller.py:111-122 | pending schedules and new runs correspond one to one, nothing else changes |
| `IntakeFacts.DispatchedExactlyWhenDue` | services/scheduler/src/memory.py:156-158 | intake dispatches a waiting schedule exactly when its time has come and nobody cancelled it |
| `IntakeFacts.TickDispatchesWhenDue` | services/scheduler/src/poller.py:78-122 | a whole tick of the system does exactly that, and names a new run of the shape of the schedule |
| `IntakeFacts.SchedulesAlwaysOk` | services/scheduler/src/poller.py:111-122 | in every history dispatched schedules and their runs match one to one |
| `IntakeFacts.ScheduleFate` | services/workflow_service/src/service.py:293-305 | a dispatched schedule keeps its one run, a cancelled one is never dispatched |
| `IntakeFacts.FiringIsRun` | services/scheduler/src/poller.py:88-97 | a due rule spawns exactly one run of its own shape per tick |
| `IntakeFacts.RuleHistory` | services/scheduler/src/poller.py:86-102 | in every history a rule only goes through firings, disabling and rest |
| `IntakeFacts.FiringsApart` | services/scheduler/src/poller.py:100-102 | firings i and j of an interval rule are at least j - i intervals apart, even if the clock jumps |
| `IntakeFacts.NoBurst` | services/scheduler/src/poller.py:100-102 | a window of length w holds at most w / interval + 1 firings |
| `IntakeFacts.CronFiringsAscend` | services/scheduler/src/poller.py:98-99 | cron firings come at ever later times if the library's answers are later than now |
| `IntakeFacts.DisabledNeverFires` | services/workflow_service/src/service.py:249-253 | a disabled rule never fires again |
| `Recurrence.RulesAlwaysOk` | services/workflow_service/src/service.py:49-63 | in every history each interval is positive |
| `Recurrence.FiringSpawns` | services/scheduler/src/poller.py:88-97 | a firing in a history spawns one run with the rule's request and promotion default, at a place of its own |
| `Recurrence.TickOnRule` | services/scheduler/src/poller.py:98-102 | a tick advances an enabled rule whose time has come to one interval after the clock, or to what the cron library answers, and leaves any other rule as it is |
| `Recurrence.NextFiringExactly` | services/scheduler/src/poller.py:86-102 | in every history a rule that fired fires again on exactly the first tick whose clock has reached its next time, unless somebody disabled it |
| `Recurrence.DisabledForGood` | services/workflow_service/src/service.py:249-253 | in every history a disabled rule stays as it is and never fires |
| `Recurrence.IntervalSpacing` | services/scheduler/src/poller.py:100-102 | in every history two firings of an interval rule are at least that interval apart |
| `Recurrence.CronSpacing` | services/scheduler/src/poller.py:98-99 | in every history a cron rule fires again no earlier than at the time the library answered |
| `Recurrence.NoBurstEver` | services/scheduler/src/poller.py:100-102 | in every history a window of length w holds at most w / interval + 1 firings of a rule, even after a downtime |
| `Requests.TickCreates` | services/scheduler/src/poller.py:78-122 | a tick creates one run per due rule, then one per waiting schedule, in their order, with their request and their promotion choice or the default; no others |
| `Requests.RequestIsServed` | services/workflow_service/src/service.py:111-154 | in every history a request becomes a run of its own shape on exactly the first tick whose clock has reached its time, unless it was cancelled before |
| `Requests.RuleIsServed` | services/workflow_service/src/service.py:49-63 | in every history a new rule first fires on exactly the first tick whose clock has reached its first time, if it is still enabled |
| `Requests.CancelHolds` | services/workflow_service/src/service.py:280-291 | in every history a run gets no stage run after an accepted cancellation, and is cancelled from the next tick on |
| `Requests.ScheduleCancelHolds` | services/workflow_service/src/service.py:293-305 | in every history a cancelled schedule never becomes a run |
| `Requests.DisablingHolds` | services/workflow_service/src/service.py:249-253 | in every history a rule never fires after it was disabled |
| `Feed.AggregateSignals` | workflows/feed_branching/aggregate_signals.py:12-18 | exact counts per item and kind, items in order of first event |
| `Feed.AggregateCounts` | workflows/feed_branching/aggregate_signals.py:12-18 | each counter is the number of events of its own kind and item |
| `Feed.ItemsByFirstEvent` | workflows/feed_branching/aggregate_signals.py:12-18 | an item stands before another if its first event came earlier |
| `Feed.CountsConserve` | workflows/feed_branching/aggregate_signals.py:12-18 | the counts add up to the number of events |
| `Feed.ScoreItems` | workflows/feed_branching/score_items.py:10-15 | one score per item, in the same order: the rounded sum of ten times the click rate, with impressions taken as at least one, and half the likes |
| `Feed.SortedExactly` | workflows/feed_branching/rank_feed.py:9-10 | the ranking is the one and only stable descending sort of the scores |
| `Feed.TiesInOrder` | workflows/feed_branching/rank_feed.py:9-10 | items of the same score are ranked in the order of the scores |
| `Feed.Validate` | resources/rank_feed.py:11-34 | accepts if and only if ids are non-empty and distinct and scores descend; otherwise names what is wrong with the first entry that breaks this |
| `Feed.RankedIsAcceptable` | resources/rank_feed.py:15-34 | for valid events and any rounding the ranked feed passes its contract |
| `Feed.EngagedRanksFirst` | workflows/feed_branching/rank_feed.py:9-10 | with a monotone rounding no item is ranked behind one with no more clicks, no more likes and no fewer impressions, except at the same score |
| `Feed.TrendingMembers` | workflows/feed_branching/trending_topics.py:15 | trending are exactly the items at or above the threshold |
| `Feed.TrendingInOrder` | workflows/feed_branching/trending_topics.py:15 | trending items stand in the order of the scores |
| `Feed.TrendingIsPrefix` | workflows/feed_branching/publish_feed.py:12-13 | in the published feed the trending items form a prefix |
| `Feed.PublishedIsScores` | workflows/feed_branching/publish_feed.py:12-13 | the merge publishes every scored item exactly once |

## Left out

- HTTP and FastAPI layers, nginx, the command line, the React pages: plumbing around the modelled services.
- The Postgres, Redis, S3 and Docker adapters: the in-memory tables and a first-in-first-out sequence stand for them.
- Worker crashes and lost messages: a message is popped at most once and its worker runs to its report.
- Failures of a report itself: the services answer every callback.
- Interleavings inside a tick or inside an upload: the code takes no locks there, so the theorems are about whole ticks and uploads.
- Unreachable stores during a tick: `get` fails only when there is no current version.
- The croniter library: `cron` is an arbitrary function, and `IntakeFacts.CronFiringsAscend` names what it needs of it.
- The import machinery for workflows and validators: stage bodies are arbitrary functions that may fail, validators arbitrary functions to an optional reason.
- Error messages, the names listed in them, and the timestamps `created_at`, `requested_at`, `started_at`, `finished_at`.
- The list queries for display (`list_runs`, `list_pending_schedules`, `list_resources` and the like): easy members.
- Type checks of the JSON validators: values in `Feed` are already typed.
- Feed.ScoreItems: scores are exact reals before an arbitrary rounding function; floating point and Python's `round` are not modelled.
- The sleeps in the demo stages.
- DagLayout.GraphLayout: names are compared character by character, not by UTF-16 code units as JavaScript does.
- DagLayout.StageDepths.DepthOf: stage names that are properties of every JavaScript object are not modelled.
- Protocol.Step: only workers record dependencies; a client calling `update_dependencies` directly could record any existing versions.
