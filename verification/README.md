# AgentMesh, modelled and proved in Dafny

AgentMesh executes agent runs on many workers and drives workflows of dependent steps through those
runs. This project models the two protocols at its centre and the smaller parts they rest on, and
proves what they keep over every history.

**Fenced run execution** (`Runs`, `RunStore`, `Execution`, `ExecutionLedger`, `Outcomes`, `Worker`). A run's row and fence are
shared by any number of workers, cancellers, recoverers and the API call that may fail to enqueue it.
`RunStore.Memory` is the store, one atomic method per mutex-protected method of the source.
`Execution` is the protocol as a step function over action lists: every worker is a program counter
with a local copy, and the actions carry what the code does not decide (who moves, what a read
returns, lease tokens, the runtime's outcome, crashes, the clock). An action that is not enabled
changes nothing, so a theorem over all action lists is a theorem over all interleavings. Reads may
return any earlier committed value of the row unless a lemma says otherwise. `Worker` writes the
engine's and the API's writes as code on the store and run objects, and shows that the store simulates
the protocol through every history. `Outcomes` says what a row holds and which action put it there: the
output the runtime returned, the cause that was given, the times.

**The workflow scheduler** (`Dag`, `Workflows`, `Manager`, `StepKeys`, `Scheduler*`, `Evaluator`,
`SkipWindow`, `Bridge`). `Dag.Validate` is Kahn's loop over arrays; `Workflows` normalises and admits
definitions; `Manager` holds the computations of one reconcile pass, with `Manager.Candidate` for the
record a pass updates in place; `Scheduler` interleaves any number of managers, start and cancel
requests and moving runs through version compare-and-swap. A manager's read of a run may return any
earlier value of it, as a cache does, provided a step already recorded succeeded is read as succeeded.
`Evaluator` is an independent recursive meaning of a definition, which the scheduler is proved to refine.
`Bridge` joins the protocols: the execution protocol provides the run lifecycle the scheduler relies on and
the answers the evaluator speaks of, and the scheduler's key table is the store's.

**Supporting parts**: leases (`Leases`), retry delays (`Backoff`), run lineage (`Lineage`), idempotent
creation and the child limit (`Creation`), agents and their versions (`Agents`, `AgentVersions`), the cached
repository (`StoreOps`, `Cached`, `CachedTheorems`) and routing (`Ranking`, `Router`,
`RouterTheorems`).

Code that changes state is a class or a method with loops, proved against a function of the old state;
the theorems are about those functions, and the main ones state their results in the fields of the records.

What the code does not do, although one might expect it:

- A workflow all of whose steps are succeeded or skipped need not be succeeded: skips are stored before
  success is, and a cancel can come in between (`SkipWindow.AllDoneYetNotSucceeded`). The exact condition
  is in `SchedulerTheorems.AllDoneWithoutSuccessIff`: a workflow that is not succeeded has all steps done
  if and only if some pass stored skips that completed the record, which `SkipFrom` computes from the
  stored record alone; `SchedulerTheorems.BecomesAllDoneIff` is the same for one action, and
  `SchedulerTheorems.EndsAllDoneIff` says that it can then end without success only by a cancellation.
- The retry delay is one above the capped exponential in exactly one case, which needs an odd cap
  (`Backoff.ComputeBackoff`, `Backoff.OddCapExceedsFormula`).
- The routing comparison is the intended one for every pair of agents whose 64-bit products fit. For all
  agents with at most `load` active runs and capacity at most `bound` it is right if and only if
  `load * bound < 2^63` (`Ranking.CorrectWithinIff`); 3 active of 10 against 4 active of 2^62 is ranked the
  wrong way round (`Ranking.HugeCapacityMisranks`).
- The cached repository answers like the store only if accepted updates keep the stored lineage fields;
  that condition is exact (`CachedTheorems.ReadAfterWriteAgreesIff`).
- The attempt equation breaks when a worker reloads a stale row after its claim: a run limited to one
  attempt can call the runtime twice (`ExecutionLedger.StaleReloadBreaksLedger`). It holds throughout a
  history if and only if every accepted write is made from a copy with the stored attempt number
  (`ExecutionLedger.LedgerIff`). A stale first read is harmless; the attempt limit
  (`ExecutionLedger.AttemptsWithinLimit`) and terminal absorption hold with any stale reads.
- A manager that reads an outdated run can store a succeeded step as unfinished again
  (`SchedulerTheorems.StaleReadUndoesSuccess`), exactly when the value read is not a succeeded one
  (`SchedulerTheorems.RecordedSuccessKeptIff`). `Scheduler.ReadOk` excludes these reads and no others; the
  uncached store never makes one (`SchedulerTheorems.PresentValueIsReadable`).
- Single-writer safety is "the latest claim or recovery wins": a claim never refuses a low lease token.

`docs/architecture.md:119` puts dead-lettering before the failed mark; the code persists the failed row
first (`internal/engine/engine.go:497-507`), and so does the model.

Assumptions: run identifiers are fresh and not empty, as `newID` provides; idempotency keys of workflow
steps are not used by other callers; whitespace trimming, lower-casing, JSON encoding of an input array
and capability normalisation are parameters.

## Model

| member | source | states |
|---|---|---|
| `Runs.RunRecord.constructor` | internal/domain/run.go:21-38 | the object holds exactly the given record |
| `Runs.RunRecord.DoAttachTo` | internal/domain/run.go:42-67 | the record gets the parent's identifier and the root of the parent's chain, or is unchanged and the lineage error returned |
| `Runs.RunRecord.DoStart` | internal/domain/run.go:69-81 | accepted exactly from queued below the attempt limit: running, started at the given time, one more attempt, all else kept; otherwise unchanged |
| `Runs.RunRecord.DoRetry` | internal/domain/run.go:83-92 | one more attempt of a running record within the limit, else unchanged |
| `Runs.RunRecord.DoSucceed` | internal/domain/run.go:94-105 | accepted exactly from running: succeeded, with the given output, no error, ended at the given time; otherwise unchanged |
| `Runs.RunRecord.DoFail` | internal/domain/run.go:107-121 | accepted exactly from queued or running with a cause: failed, with that cause, no output, ended at the given time; otherwise unchanged |
| `Runs.RunRecord.DoCancel` | internal/domain/run.go:123-134 | accepted exactly from queued or running: canceled, without output or error, ended at the given time; otherwise unchanged |
| `Runs.DurationMs` | internal/domain/run.go:136-145 | the whole milliseconds between start (or creation) and completion, 0 when the start is unset or later |
| `Runs.TransitionsKeepShape` | internal/domain/run.go:69-134 | every accepted transition keeps the identity fields and the shape of the record and follows an edge of the status graph |
| `Runs.TerminalRejectsAll` | internal/domain/run.go:69-134 | every transition, with every cause and output, is refused from a terminal status; from any other the record can be canceled and failed |
| `RunStore.ClaimIsLeastFreshFence` | internal/store/memory.go:572-591 | a claim succeeds exactly on non-terminal rows and yields the least number above the stored fence and not below the token |
| `RunStore.OlderFenceIsRefused` | internal/store/memory.go:593-610 | after a claim or recovery no earlier fence can write, whatever token was used |
| `RunStore.Memory.constructor` | internal/store/memory.go:170-181 | a new store is empty |
| `RunStore.Memory.CreateRun` | internal/store/memory.go:469-531 | a known key is replayed and changes nothing; a new run is stored as given up to its lineage and its key bound to it; a refusal changes nothing; state and reply are those of `Insert` |
| `RunStore.Memory.CountChildren` | internal/store/memory.go:490-495 | the loop counts exactly the stored runs with that parent |
| `RunStore.Memory.CreateChildRun` | internal/store/memory.go:475-501 | as `CreateRun`, with the parent required and the child limit enforced before anything is stored |
| `RunStore.Memory.GetRun` | internal/store/memory.go:533-541 | the stored row, or not found |
| `RunStore.Memory.UpdateRun` | internal/store/memory.go:553-570 | refused on canceled rows and on rows ever claimed; otherwise stores the record with the stored lineage, and touches no other row |
| `RunStore.Memory.UpdateRunFenced` | internal/store/memory.go:593-610 | stores exactly when the row is not canceled and the presented fence is positive and current |
| `RunStore.Memory.ClaimRunExecution` | internal/store/memory.go:572-591 | moves only the fence, to the value of `Claim` |
| `RunStore.Memory.CancelRun` | internal/store/memory.go:612-624 | stores the canceled row, or returns the row it found with the refusal |
| `RunStore.Memory.RecoverRun` | internal/store/memory.go:689-712 | requeues a running row with one attempt less and a higher fence; otherwise reports false and changes nothing |
| `Creation.CreationMeaning` | internal/store/memory.go:503-531 | a bound key is replayed; otherwise a run is accepted exactly if it is a root declaring no root, or its parent exists, may have it and a declared root is the inherited one; it is stored with the inherited root and its key bound; a refusal changes nothing |
| `Creation.KeyCreatesOnce` | internal/store/memory.go:503-531 | once a creation with a key stored a run, after any operations every creation with that key, whatever run it carries, replies with the present row of that run as not new and changes nothing |
| `Creation.ChildKeyCreatesOnce` | internal/store/memory.go:475-531 | the same when the first creation was one of a child |
| `Creation.ChildRefusedIff` | internal/store/memory.go:475-501 | a child is refused for the limit exactly when it is not a replay, its parent exists and has at least that many children |
| `Creation.ChildLimitHolds` | internal/store/memory.go:475-501 | in every history, a run whose children are created with limits of at most n never has more than n children |
| `Execution.StepSafe` | internal/engine/engine.go:263-420 | every action of every participant keeps the protocol invariant and leaves a terminal row alone |
| `Execution.TerminalRunsNeverChange` | internal/engine/engine.go:263-420 | in every history, with reads of any earlier value of the row, a succeeded, failed or canceled run keeps its whole row for ever |
| `Execution.RowsKeepIdentityAndShape` | internal/engine/engine.go:333-420 | in every history the stored row keeps the identity it was created with and stays well shaped |
| `Execution.OneTerminalEvent` | internal/engine/engine.go:493-511 | at most one terminal event is published per run, it names the permanent status, and a dead-lettered run is failed for ever |
| `Execution.SubmitFailureSafe` | internal/httpapi/server.go:1189-1204 | the API's unfenced failure write after a failed enqueue keeps the invariant, also when it races with workers and cancels |
| `Execution.SingleWriter` | internal/store/memory.go:553-610 | in every history at most one participant is entitled to write, every accepted fenced or plain write is made by it, and otherwise only a cancellation or recovery changes the row |
| `Execution.ClaimsStrictlyIncrease` | internal/store/memory.go:572-591 | of two claims in any history the later gets the greater fence, and each respects its token as a minimum |
| `Outcomes.AnswerStored` | internal/engine/engine.go:383-393 | the write after the runtime returned is accepted exactly from the holder of the fence on a row that is not canceled, and stores succeeded with the returned output and the given time |
| `Outcomes.FailureStored` | internal/engine/engine.go:398-403 | after the runtime raised, the worker goes round the loop without writing exactly below the attempt limit; at the limit the row becomes failed with that cause, and event and dead letter come next |
| `Outcomes.AttemptStored` | internal/engine/engine.go:343-356 | an attempt is stored exactly by the holder below the limit: running, one more attempt, the start time set on the first and kept on later ones |
| `Outcomes.CancelStored` | internal/engine/engine.go:194-209 | a cancellation is accepted exactly on queued and running rows; it stores canceled at the given time and leaves the fence alone |
| `Outcomes.RecoveryStored` | internal/store/memory.go:689-712 | a recovery takes back every running row and no other: queued, not started, one attempt less, under a higher fence |
| `Outcomes.TerminalRowIsExplained` | internal/engine/engine.go:263-420 | in every history a terminal row was made by one action and holds what it gave: a succeeded row the output of that runtime call, a failed row the cause raised or given, and each the time of that action |
| `Outcomes.AcceptedAnswerIsKept` | internal/engine/engine.go:383-393 | once the answer of the runtime was accepted, the row is succeeded with that output and time for ever |
| `Outcomes.StartIsAnAttempt` | internal/domain/run.go:69-92 | in every history a recorded start time is that of an attempt of the history, and running and succeeded rows have one |
| `ExecutionLedger.HolderCopyIsStoredRow` | internal/engine/engine.go:293-356 | unless a worker reloads a stale row, the holder of the current fence works on a copy equal to the stored row, unless the row was canceled |
| `ExecutionLedger.AttemptLedger` | internal/engine/engine.go:333-364 | unless a worker reloads a stale row, attempts equal accepted attempt starts minus recoveries, lie between 0 and the limit, are at least 1 while running, and runtime calls never exceed the limit plus the recoveries |
| `ExecutionLedger.CountersAreTotals` | internal/engine/engine.go:343-364 | the counters in the attempt equation are the numbers of accepted attempt writes, recoveries and runtime calls in the history |
| `ExecutionLedger.LedgerIff` | internal/engine/engine.go:315-364 | with any reads, the attempt equation holds throughout a history if and only if every accepted write is made from a copy with the stored attempt number |
| `ExecutionLedger.AttemptsWithinLimit` | internal/domain/run.go:69-92 | with any reads, the stored attempt number lies between 0 and the limit, is 0 while there is no limit, and is at least 1 while running |
| `Worker.BeginAttempt` | internal/engine/engine.go:343-356 | start or retry of the local copy and its fenced write, or the first refusal with the store unchanged |
| `Worker.Complete` | internal/engine/engine.go:383-393 | success of the local copy and its fenced write, or the first refusal |
| `Worker.FailRun` | internal/engine/engine.go:493-502 | failure of the local copy and its fenced write, or the first refusal |
| `Worker.FailSubmission` | internal/httpapi/server.go:1189-1197 | failure of the submitted run and its unfenced write, or the first refusal |
| `Worker.StoreFollowsProtocol` | internal/engine/engine.go:343-401 | what the code stores is the row of the next protocol state, and it succeeds exactly when the protocol step is an accepted write |
| `Worker.WritesAreIntended` | internal/engine/engine.go:263-420 | every accepted write of a participant in the protocol is one of these |
| `Worker.StoreSimulatesProtocol` | internal/store/memory.go:503-712 | from the creation of a run on, through every history, the store holds the row and fence of the protocol state and touches no other run |
| `ExecutionLedger.StaleReloadBreaksLedger` | internal/engine/engine.go:315-364 | with a stale reload a run limited to one attempt calls the runtime twice with no recovery |
| `Dag.Validate` | internal/domain/workflow.go:275-307 | accepts exactly the graphs with a topological order, which are exactly those without a dependency cycle |
| `Dag.CountDependents` | internal/domain/workflow.go:276-284 | in-degrees and dependents lists of the first loop, repeated references counted with their multiplicity |
| `Dag.InitialQueue` | internal/domain/workflow.go:285-290 | the queue starts with exactly the steps without dependencies, each once |
| `Dag.Drain` | internal/domain/workflow.go:285-306 | what the main loop visited is distinct and dependencies come first, every in-degree is the number of dependencies not visited, and it accepts exactly when everything was visited |
| `Dag.OrderExcludesCycle` | internal/domain/workflow.go:275-307 | a graph with a topological order has no cycle |
| `Dag.BlockedHasCycle` | internal/domain/workflow.go:303-305 | if some steps are left and each of them waits for another one, there is a cycle |
| `Workflows.NormalizeWorkflowRefs` | internal/domain/workflow.go:258-273 | the loop computes `NormalizeRefs`, the subject of `NormalizeRefsMeaning` |
| `Workflows.NormalizeRefsMeaning` | internal/domain/workflow.go:258-273 | normalised references are non-empty, distinct, exactly the folded values, in order of first occurrence |
| `Workflows.ValidateStep` | internal/domain/workflow.go:188-256 | accepts exactly the steps whose dependencies, condition, input and aggregation are legal |
| `Workflows.ValidateWorkflowDag` | internal/domain/workflow.go:275-307 | accepts exactly the step lists whose dependency graph is acyclic |
| `Workflows.NormalizeSteps` | internal/domain/workflow.go:148-175 | accepts exactly well-named, unique steps with an agent; rewrites each (field by field in `InitializeForCreate`) and indexes names by position |
| `Workflows.ValidateSteps` | internal/domain/workflow.go:177-181 | reports the first illegal step, or returns the definition with default aggregations when all are legal |
| `Workflows.InitializeForCreate` | internal/domain/workflow.go:129-186 | accepts exactly the admissible definitions; stores the trimmed name, the given input and every given step with folded name, trimmed agent, given input, its folded references, its condition exactly when given with folded source and operator and the same value, and its folded or filled-in aggregation; all steps pending; reports a cycle only when there is one |
| `Workflows.AdmittedIsRunnable` | internal/domain/workflow.go:188-307 | every admitted definition, as stored, has what execution needs, acyclicity included |
| `Manager.ConditionOperators` | internal/workflow/manager.go:548-561 | for every source: equality, its negation, occurrence anywhere in the text, its negation; an unknown operator never holds |
| `Manager.Candidate.constructor` | internal/workflow/manager.go:243-260 | the working copy has the content of the stored record |
| `Manager.Candidate.CancelNonterminalSteps` | internal/workflow/manager.go:572-579 | exactly the unfinished steps become canceled, in place |
| `Manager.Candidate.ApplyConditions` | internal/workflow/manager.go:509-546 | one pass skips what `SkipFrom` skips, and reports whether anything changed |
| `Manager.Candidate.ActiveStepCount` | internal/workflow/manager.go:435-443 | counts the queued and running steps |
| `Manager.Candidate.RefreshSteps` | internal/workflow/manager.go:343-396 | with any answers to its reads, the first answer that is not good decides: a failed run fails the workflow with an error naming step and cause, a canceled one cancels it, each clearing what is unfinished, a failed read returns the error; otherwise every step becomes what its run is, succeeded workflows are exactly those with every step complete, and the changed flag is exact |
| `Manager.ReadyFrom` | internal/workflow/manager.go:445-466 | the first pending step whose dependencies are all done, or none |
| `Manager.FirstRunIdMeaning` | internal/workflow/manager.go:468-481 | the parent of a new run is the run of the first dependency that has one, and there is none exactly if no dependency has a run |
| `Manager.WorkflowMemory.UpdateWorkflow` | internal/store/memory.go:227-257 | conflict exactly when the version is not the expected one; on success the version is raised by one, status, error and steps are the given ones and the definition is kept; otherwise nothing changes |
| `StepKeys.StepKeysAreDistinct` | internal/workflow/manager.go:317 | different (workflow, step) pairs have different keys, whatever the workflow names contain |
| `StepKeys.ColonInStepNameCollides` | internal/domain/workflow.go:46 | with a colon in a step name two pairs can share a key |
| `SchedulerCounting.SomeStepReady` | internal/workflow/manager.go:445-466 | in an acyclic workflow with a pending step and nothing active, some step is ready |
| `SchedulerCounting.InputResolves` | internal/workflow/manager.go:468-507 | the input of a ready step always resolves |
| `SchedulerSteps.StepKeepsInv` | internal/workflow/manager.go:243-407 | every action of managers, requests and runs keeps the scheduler invariant |
| `SchedulerTheorems.TerminalWorkflowsNeverChange` | internal/workflow/manager.go:109-162 | a succeeded, failed or canceled workflow keeps its whole record for ever |
| `SchedulerTheorems.StatusesAgree` | internal/workflow/manager.go:343-407 | terminal workflows have no pending, queued or running step, live ones no failed or canceled step, succeeded ones only done steps, and conversely when no step is skipped; an all-done workflow that is not succeeded is running or canceled |
| `SchedulerTheorems.OneRunPerStep` | internal/workflow/manager.go:312-329 | a step's key, once bound, keeps its run; a recorded run is the one bound to the key and is never replaced |
| `SchedulerTheorems.SchedulerNeverStalls` | internal/workflow/manager.go:292-311 | the branches "no workflow step is ready" and "input cannot be resolved" are never taken |
| `SchedulerTheorems.PassNeverIdles` | internal/workflow/manager.go:256-317 | a pass that read every step stores success exactly when all are done, stores whatever changed, waits only while a step is active and the limit is reached or nothing is ready, and creates the run of the first ready step otherwise |
| `SchedulerTheorems.FailuresAreReported` | internal/workflow/manager.go:343-407 | in every reachable state a failed step has a failed run and its workflow failed with an error naming the step and the error of the run; a canceled workflow has no failed step; a failed one has one or a creation failed |
| `SchedulerTheorems.ConcurrencyIsBounded` | internal/workflow/manager.go:292-323 | in every stored state the set of queued and running steps has at most as many elements as the limit, with any number of managers |
| `SchedulerTheorems.WritesAreBounded` | internal/workflow/manager.go:260-329 | scheduler writes number at most 3n+1 for n steps, plus two per observed recovery |
| `SchedulerTheorems.TallyCountsWrites` | internal/workflow/manager.go:260-329 | the bounded number is the number of accepted writes of managers to this workflow in the history |
| `SchedulerTheorems.StepsRunOrSkipForCause` | internal/workflow/manager.go:282-323 | a run is recorded only when all dependencies are done and the condition holds on their outputs, a step is skipped only when it is false on them; both stay true |
| `Evaluator.SolutionUnique` | internal/workflow/manager.go:468-561 | a definition and its answers determine every step's skip, input and output |
| `Evaluator.EvaluateSolves` | internal/workflow/manager.go:468-561 | the reference evaluation along any topological order gives that solution |
| `Evaluator.SchedulerRefinesEvaluator` | internal/workflow/manager.go:243-396 | in every reachable state a succeeded workflow has exactly the skipped set, inputs and outputs of the reference evaluation |
| `Evaluator.SuccessIsDeterministic` | internal/workflow/manager.go:243-396 | two successful executions of one definition agree, whatever limits, managers and schedules |
| `Bridge.ExecutionFollowsLifecycle` | internal/engine/engine.go:263-420 | every step of the execution protocol moves a run along the lifecycle the scheduler relies on |
| `Bridge.RowHoldsAnswer` | internal/engine/engine.go:362-393 | in every history of a run whose runtime, when it returns, returns one answer, a succeeded row holds that answer and the input it was created with |
| `Bridge.ExecutedWorkflowIsAnswered` | internal/engine/engine.go:362-393 | runs executed by the agents of the steps answer as the evaluator assumes |
| `Bridge.ExecutedSuccessRefinesEvaluator` | internal/workflow/manager.go:243-396 | both protocols together: a succeeded workflow whose runs were executed in any histories has the skips, inputs and outputs of the reference evaluation |
| `Bridge.CreationIsInsert` | internal/workflow/manager.go:312-322 | creating the run of a step does to the scheduler's runs and keys what `Insert` does to the store, the step gets the run that `Insert` replies with, and a refusal is the failing creation |
| `SkipWindow.AllDoneYetNotSucceeded` | internal/workflow/manager.go:282-291 | for a definition that admission accepts, a running and a canceled workflow with every step done are both reachable |
| `SchedulerTheorems.BecomesAllDoneIff` | internal/workflow/manager.go:282-291 | a live workflow becomes all done without success by exactly one kind of action: the write of skips over the stored record that, computed from it, complete it |
| `SchedulerTheorems.AllDoneWithoutSuccessIff` | internal/workflow/manager.go:243-396 | in every history, a workflow that is not succeeded has all steps succeeded or skipped if and only if such a write happened |
| `SchedulerTheorems.EndsAllDoneIff` | internal/workflow/manager.go:129-162 | the action that ends a workflow without success leaves it all done only if it found it so, and is then a cancellation; a failed workflow never has all steps done |
| `SchedulerTheorems.PresentValueIsReadable` | internal/workflow/manager.go:354-357 | in every reachable state the run of the step to refresh exists and its present value is an admitted read |
| `SchedulerTheorems.StaleReadUndoesSuccess` | internal/workflow/manager.go:343-378 | a pass that reads the run of a succeeded last step as queued or running stores that step as unfinished |
| `SchedulerTheorems.RecordedSuccessKeptIff` | internal/workflow/manager.go:354-378 | with any earlier value of the run read, a step recorded succeeded stays as recorded if and only if the value read is succeeded |
| `Leases.Coordinator.constructor` | internal/coordination/memory.go:20-22 | no locks, no tokens handed out |
| `Leases.Coordinator.Acquire` | internal/coordination/memory.go:24-41 | a free or expired key is granted with the next token; otherwise nothing changes |
| `Leases.Lease.constructor` | internal/coordination/memory.go:40 | a new lease remembers key and token and is not released |
| `Leases.Lease.Renew` | internal/coordination/memory.go:55-74 | extends a live lock of this token; a lost lease is reported and an expired lock of this token removed |
| `Leases.Lease.Release` | internal/coordination/memory.go:76-85 | removes the lock of this token, once |
| `Leases.TokensStrictlyIncrease` | internal/coordination/memory.go:24-41 | of two grants in any history, on any keys, the later has the greater token |
| `Leases.StaleLeaseIsPowerless` | internal/coordination/memory.go:55-85 | once the key was granted again, the older lease's renewals are refused and neither they nor its release change anything, ever |
| `Leases.RenewProvesNoTakeover` | internal/coordination/memory.go:55-74 | a successful renewal means no other acquisition of the key succeeded at any point since the grant |
| `Leases.AtMostOneUnexpired` | internal/coordination/memory.go:24-85 | with a clock that never goes back, a key is granted again without a release only when the earlier lease, all its renewals counted, has run out |
| `Leases.NextCallerIsGrantedIff` | internal/coordination/memory.go:24-85 | with a clock that never goes back, the next caller after a grant gets the key if and only if its context is live, its time to live positive, and the lease was released or has run out, all renewals counted |
| `Leases.FirstCallerIsGrantedIff` | internal/coordination/memory.go:24-41 | a key never granted before goes to the caller if and only if its context is live and its time to live positive |
| `Backoff.ComputeBackoff` | internal/engine/engine.go:525-537 | min(max, initial * 2^(attempt-1)) except, exactly, one more when the doubled delay is one below an odd cap; no doubling leaves 64 bits |
| `Backoff.DelayIsMonotone` | internal/engine/engine.go:525-537 | delays never shrink with the attempt and never exceed the cap |
| `Backoff.OddCapExceedsFormula` | internal/engine/engine.go:525-537 | from 2 with cap 5 the second delay is 5, not 4 |
| `Lineage.OnlyCreationSetsLineage` | internal/store/memory.go:553-712 | no operation but creation changes a row's identifier, parent or root |
| `Lineage.RunsFormForest` | internal/store/memory.go:503-531 | in every reachable store state parents come before children in one creation order and roots are inherited along it |
| `Lineage.ForestHasNoCycle` | internal/domain/run.go:42-67 | no run is its own ancestor |
| `Lineage.RootIsEndOfChain` | internal/domain/run.go:42-67 | RootRunID is the end of the parent chain, empty exactly on roots |
| `Lineage.ChainIsPermanent` | internal/store/memory.go:503-712 | a chain of parents stays the chain through any later operations |
| `Lineage.AgentCallAncestry` | internal/httpapi/server.go:1027-1046 | the walk ends with the exact chain length and agent set, reports a cycle only when there is one, and always succeeds on a forest |
| `Agents.AgentMemory.constructor` | internal/store/memory.go:170-181 | no agents |
| `Agents.AgentMemory.CreateAgent` | internal/store/memory.go:343-354 | stores a valid agent under a free identifier, else changes nothing |
| `Agents.AgentMemory.UpdateAgent` | internal/store/memory.go:356-374 | accepted exactly at the expected version; the stored agent is the given one with the next version and the old creation time |
| `Agents.NamedByRun` | internal/store/memory.go:386-390 | the scan finds exactly whether a run names the agent |
| `Agents.NamedByWorkflow` | internal/store/memory.go:391-397 | the scan finds exactly whether a workflow step names the agent |
| `Agents.AgentMemory.DeleteAgent` | internal/store/memory.go:376-400 | removes an agent at the expected version that no run and no workflow step names, else changes nothing |
| `Agents.AgentMemory.GetAgent` | internal/store/memory.go:402-410 | the stored agent, or not found |
| `AgentVersions.OvertakenUpdateConflicts` | internal/store/memory.go:356-400 | no lost update: after an accepted update, every later update or deletion expecting the same version is a conflict and changes nothing, whatever happened in between, unless the agent was deleted |
| `Cached.KeyTextsAreDistinct` | internal/store/cached.go:260-261 | different runs and agents never share a cache key |
| `Cached.Repository.constructor` | internal/store/cached.go:20-22 | starts with an empty cache over the given store |
| `Cached.Repository.CreateAgent` | internal/store/cached.go:24-31 | inner reply; a created agent is cached |
| `Cached.Repository.GetAgent` | internal/store/cached.go:33-48 | a versioned cached agent, else the inner reply, cached when found |
| `Cached.Repository.UpdateAgent` | internal/store/cached.go:50-60 | inner reply; the updated agent is cached, a conflict or missing agent evicted |
| `Cached.Repository.DeleteAgent` | internal/store/cached.go:62-68 | inner reply; the entry is evicted unless the agent is in use |
| `Cached.Repository.CreateRun` | internal/store/cached.go:82-89 | inner reply; the returned run is cached |
| `Cached.Repository.CreateChildRun` | internal/store/cached.go:91-98 | inner reply; the returned run is cached |
| `Cached.Repository.GetRun` | internal/store/cached.go:100-115 | a cached run, else the inner reply, cached when found |
| `Cached.Repository.UpdateRun` | internal/store/cached.go:121-130 | inner reply; caches the caller's record on success, evicts on canceled or stale |
| `Cached.Repository.ClaimRunExecution` | internal/store/cached.go:132-138 | inner reply; a refused claim evicts |
| `Cached.Repository.UpdateRunFenced` | internal/store/cached.go:140-149 | inner reply; caches the caller's record on success, evicts on canceled or stale |
| `Cached.Repository.CancelRun` | internal/store/cached.go:151-157 | inner reply; the returned row is cached, also on refusal |
| `Cached.Repository.RecoverRun` | internal/store/cached.go:175-184 | inner reply; a recovered run is evicted |
| `CachedTheorems.StepTracks` | internal/store/cached.go:24-184 | on a coherent cache every operation gives the store's own reply and next state and keeps the cache coherent |
| `CachedTheorems.CacheIsInvisible` | internal/store/cached.go:24-184 | for every history of calls and expiries the cached repository gives exactly the replies of the store alone |
| `CachedTheorems.NextReadIsHit` | internal/store/cached.go:24-184 | after a read, a creation, an accepted update or a cancellation the next read of that run or agent is answered from the cache |
| `CachedTheorems.ReadAfterWriteAgreesIff` | internal/store/cached.go:121-149 | a read after an accepted update agrees with the store if and only if the update kept the stored lineage |
| `Ranking.LessIsBefore` | internal/router/router.go:134-153 | the comparison as written is the intended one for every pair whose two products fit in 64 bits |
| `Ranking.CorrectWithinIff` | internal/router/router.go:134-140 | for all agents with at most `load` active runs and capacity at most `bound`, the comparison is the intended one if and only if `load * bound < 2^63` |
| `Ranking.HugeCapacityMisranks` | internal/router/router.go:136-140 | 3 active of 10 is ranked before 4 active of 2^62, against the intended order |
| `Ranking.BeforeIsTotal` | internal/router/router.go:134-153 | the order is asymmetric and decides between any two agents with different identifiers |
| `Ranking.BeforeIsTransitive` | internal/router/router.go:134-153 | the order is transitive, cross products and tie-breaks together |
| `Ranking.StringLessMeaning` | internal/router/router.go:152 | the comparison of identifiers is the dictionary order |
| `Router.NormalizeRequirements` | internal/router/router.go:171-189 | fails exactly on an empty list or a requirement without canonical form; otherwise the first occurrences |
| `Router.DedupeMeaning` | internal/router/router.go:175-188 | the same names, none twice, the first one first |
| `Router.MatchingAll` | internal/router/router.go:191-210 | exactly the agents that declare every requirement, in order |
| `Router.RankAvailable` | internal/router/router.go:121-155 | the agents with room, capacity 0 read as 1, sorted by the comparison; in fields in `ChoiceIsLeastLoaded` |
| `Router.Select` | internal/router/router.go:54-113 | invalid requirements, or the decision of `Route` on the canonical requirements, with the active runs of each tier counted on their own; in fields in `ChoiceIsLeastLoaded` |
| `RouterTheorems.SortedIsUnique` | internal/router/router.go:134-153 | any correct sort of the same agents gives the same list |
| `RouterTheorems.ChoiceIsLeastLoaded` | internal/router/router.go:54-155 | while the products of the candidates fit in 64 bits: the chosen agent declares everything and has room, in the first tier where any does; every other such agent has a larger active/capacity ratio, or with the same ratio a smaller priority, then less room left, then a later creation, then a later name; the reply carries its load, its capacity and the number of such agents |
| `RouterTheorems.ErrorsAreExact` | internal/router/router.go:109-112 | no candidate exactly when nobody declares everything; no capacity exactly when somebody does and all of those are full |
| `RouterTheorems.RouteIgnoresOrder` | internal/router/router.go:54-155 | while the products of the candidates fit in 64 bits, the decision is the same for every order of the listed agents |

## Left out

- PostgreSQL, Redis and NATS adapters: they talk to systems outside this repository.
- Event bus delivery, persisted event lists, audit log, tool approvals, health probing: separate small parts, only easy members.
- HTTP handlers other than the ancestry walk and the failed-enqueue write, JSON, dashboard, metrics, configuration.
- Concurrent or failing cache operations: the cache refinement is about atomic operations whose cache writes succeed; the execution theorems cover stale reads instead.
- Scheduler reads that return an unfinished value for a step already recorded succeeded: excluded, because they undo the record (`SchedulerTheorems.RecordedSuccessKeptIff`).
- Lease timing around workers and managers: any lease token may appear in a claim and ownership may change at any time, so the theorems do not use leases; the lease keeper's ticker is a crash of its worker.
- Liveness under real timing: a running run at its attempt limit moves only by cancel or recovery, and nothing is claimed about when.
- Runs of canceled or failed workflows: sibling runs are not claimed to be canceled, and a run created before a losing compare-and-swap stays unrecorded.
- Step and workflow timestamps, workflow events, the agent-existence lookup when a workflow is created, texts of error messages other than that of a failed step.
- 64-bit wrap-around of fences, tokens and versions: unbounded integers; durations and routing products are modelled with their width.
- Agents.AgentMemory.CreateAgent: field normalisation and validation are a parameter, because they are string and URL rules.
- Agents.AgentMemory.UpdateAgent: the same.
- The discovery search and the active-run count: their results are inputs of `Router.Select`; `Router.Sort` stands for the library sort.
- Lineage.AgentCallAncestry: reads one state of the store; `Lineage.ChainIsPermanent` shows that later states give the same parents, but agent identifiers may be rewritten between its reads in the source.
