# Verification of the crash-safe task runner

This project models the scheduler and integrator of concurrently running tasks and proves what its
documentation promises.

- **Scopes and conflicts** (`Scope*.dfy`, `TaskConflicts.dfy`, `ConflictReports.dfy`, `WritableScopes.dfy`, `DisjointScopes.dfy`,
  `WideStars.dfy`): path patterns are compiled twice, to a character-level matcher and to segment lists. The matcher matches
  what a glob means, the overlap test on segments is exact and over-approximates the matcher, and so two tasks without a
  reported path conflict never write a common file.
- **Canonical serialization** (`JsonStrings.dfy`, `Canonical*.dfy`): every text is JSON of the value it stands for, and equal
  texts mean equal values.
- **Claims, leases, recovery ownership and locks** (`ResourceLocks.dfy`, `Claim*.dfy`, `ExecutionClaimRecovery.dfy`): each
  transaction is one step on the tables; invariants, leases and fencing hold over every interleaving.
- **Integration** (`IntegrationQueue.dfy`, `IntegrationDrift.dfy`, `CommitGraph.dfy`, `GitRepo.dfy`, `QueueProcessor*.dfy`,
  `QueueSafety.dfy`, `QueueWork.dfy`, `QueueOutcomes.dfy`, `OtherActors.dfy`): a durable queue and a processor that may crash between any two
  steps, over a history of commits. Work is integrated at most once, and all of it before its task is DONE.
- **Execution and recovery** (`WorkflowDefinition.dfy`, `WorkflowExecutor.dfy`, `StageRunIds.dfy`, `ApprovedPlan.dfy`,
  `LoopPlans.dfy`, `CrashRecovery*.dfy`, `RecoveryOutcomes.dfy`, `RecoveryOwnership.dfy`, `StoredTasks.dfy`): legal status
  histories, bounded review loops, one plan for implementer and reviewer, and a total recovery whose every outcome is pinned
  and whose ownership may lapse at any transaction.
- **Scheduling** (`TaskSelection.dfy`, `Dispatch.dfy`, `DependencyClosure.dfy`, `ExecutionEndings.dfy`, `UnattendedScheduler.dfy`): safe admission,
  dependencies that stay done, and a run loop that ends, for the reason it reports.

Whatever comes from outside (agents, checks, Git failures, clocks, random ids, the timing of other processes) is a
parameter, and the results hold for all its values. `Options.dfy`, `Text.dfy`, `Sorting.dfy`, `TaskStates.dfy` and
`Tasks.dfy` hold what the others share.

Two promises do not hold for every input. The code is kept as it is, and the exact condition is proved.

- A run of three or more stars spans directories for the matcher (packages/orchestrator/src/task-scope.ts:155) but is one segment
  for conflict detection (packages/core/src/domain/task-conflicts.ts:203). Overlaps are then missed:
  `WideStars.OverlapNeedsPlainGlobs`.
- A recovery whose ownership has lapsed writes nothing more to the store, but it may still fast-forward the integration branch,
  because Git is called before the ownership check of the transaction that records it: `RecoveryOwnership.LostOwnerMovesHead`.
  The next owner then completes the task: `RecoveryOwnership.UnownedMergeIsSettledNext`.

A second crash recovery is a no-op in every state that the program's transactions store
(`StoredTasks.StoredRecoveryIsIdempotent`). As a function of arbitrary states it is one exactly when the task does not reopen
(`CrashRecovery.RecoveryIsIdempotent`): only a store altered by hand, or by a worker
that writes on after it lost its claim, holds a task in VERIFYING beside a commit of the same attempt.

Nothing was executed; all results are proofs about the model.

## Model

| member | source | states |
|---|---|---|
| `ScopePatterns.Anchor` | packages/orchestrator/src/task-scope.ts:114-124 | the loops that both compilers begin with compute the pattern without anchors and trailing slashes, and whether it named a directory |
| `ScopeSegments.CompileScopeSegments` | packages/core/src/domain/task-conflicts.ts:178-217 | the compiled segments: any depth for a pattern without a slash, anything below for a directory, nothing for empty patterns or segments |
| `ScopeSegments.CompiledLiteralsAreNames` | packages/core/src/domain/task-conflicts.ts:178-217 | a compiled literal can be a path name |
| `ScopeSegments.OverlapTest.Match` | packages/core/src/domain/task-conflicts.ts:225-261 | the memoised test answers what the plain recursion answers, for any memo built by it, and terminates |
| `ScopeSegments.OverlapTest.MatchUncached` | packages/core/src/domain/task-conflicts.ts:240-258 | the same for one uncached pair of positions |
| `ScopeSegments.SegmentsOverlap` | packages/core/src/domain/task-conflicts.ts:225-261 | true if and only if some sequence of names is accepted by both segment lists |
| `ScopeSegments.OverlapIsExact` | packages/core/src/domain/task-conflicts.ts:225-261 | the overlap test is exact; for compiled patterns the common path consists of proper names |
| `ScopeSegments.AcceptedByBothOverlaps` | packages/core/src/domain/task-conflicts.ts:225-261 | a path accepted by both lists makes the test answer true |
| `ScopeSegments.OverlapWitness` | packages/core/src/domain/task-conflicts.ts:225-261 | a true answer is witnessed by a path both lists accept |
| `ScopeSegments.OverlapIsSymmetric` | packages/core/src/domain/task-conflicts.ts:225-261 | the order of the two patterns does not matter |
| `ScopeGlob.GlobSource` | packages/orchestrator/src/task-scope.ts:138-175 | the regular-expression text built character by character is the rendering of the token list of the pattern |
| `ScopeGlob.CompileScopePattern` | packages/orchestrator/src/task-scope.ts:113-136 | the whole compiled expression, with the any-depth prefix and the directory tail, and nothing for an empty pattern |
| `ScopeGlob.RenderedEnd` | packages/orchestrator/src/task-scope.ts:130-156 | the tests on the end of the text (at a segment start, ends in any-rest) say what the last token is |
| `ScopeRegex.SourceReadsBack` | packages/orchestrator/src/task-scope.ts:113-175 | the text of the compiled expression reads, by the syntax of ECMAScript, as the tokens whose meaning is matched; every other character stands for itself |
| `ScopeSafety.MatchedIsAccepted` | packages/orchestrator/src/task-scope.ts:113-175 | a path that the character matcher accepts is accepted by the segments of the same pattern text |
| `ScopeSafety.PatternMatchIsAccepted` | packages/orchestrator/src/task-scope.ts:94-175 | the same for raw patterns, with directory patterns and the probe of directory paths |
| `ScopeSafety.MatchedByBothOverlaps` | packages/core/src/domain/task-conflicts.ts:178-261 | two patterns that match the same path overlap |
| `ScopeReference.PatternMatchesWhatFits` | packages/orchestrator/src/task-scope.ts:87-175 | a path matches a pattern if and only if its names fit the parts of the pattern, by a reading of globs that knows no tokens: stars and question marks within a name, `**` for any number of names, a directory for what is below, a single name at any depth |
| `ScopeReference.SpellingsAgree` | packages/orchestrator/src/task-scope.ts:101-107 | backslashes, a leading dot and a leading slash spell the same path |
| `ScopeReference.PatternSpellingsAgree` | packages/orchestrator/src/task-scope.ts:114-124 | the same for patterns; a trailing slash asks for a directory |
| `ScopeReference.DirectoriesAreProbed` | packages/orchestrator/src/task-scope.ts:94-99 | a changed directory stands for a file in it |
| `DisjointScopes.PlainPatternAcceptsItself` | packages/core/src/domain/task-conflicts.ts:178-217 | the segments of a pattern without stars and question marks accept the path it spells, and no other |
| `DisjointScopes.PlainOverlapIsExact` | packages/core/src/domain/task-conflicts.ts:160-261 | two such patterns overlap if and only if some path matches both, which is if and only if they spell the same path |
| `DisjointScopes.DirectoryAcceptsBelow` | packages/core/src/domain/task-conflicts.ts:178-217 | a plain directory pattern accepts exactly the paths that begin with its names |
| `DisjointScopes.NameAcceptsAtAnyDepth` | packages/core/src/domain/task-conflicts.ts:178-217 | a plain name accepts exactly the paths that end with it |
| `DisjointScopes.DifferentNamesExclude` | packages/core/src/domain/task-conflicts.ts:225-276 | different plain names at the same place, before any `**`, exclude an overlap, whatever else the patterns hold |
| `ScopeValidation.ValidateTaskScope` | packages/orchestrator/src/task-scope.ts:35-62 | exactly the violating paths are reported, each once, in ascending order; none if and only if the change respects the scope |
| `TaskConflicts.SharedValues` | packages/core/src/domain/task-conflicts.ts:114-127 | the loop computes the shared trimmed values |
| `TaskConflicts.SharedValuesExact` | packages/core/src/domain/task-conflicts.ts:114-127 | exactly the values in both lists, each once, strictly ascending |
| `TaskConflicts.ScopeOverlaps` | packages/core/src/domain/task-conflicts.ts:129-158 | the nested loops compute the reported pattern pairs |
| `TaskConflicts.ScopeOverlapsExact` | packages/core/src/domain/task-conflicts.ts:129-158 | every reported pair overlaps, the key of every overlapping pair is reported, and the report is empty only without overlap |
| `TaskConflicts.DetectTaskConflicts` | packages/core/src/domain/task-conflicts.ts:59-98 | the pair loops compute the conflict report of the tasks ordered by id |
| `TaskConflicts.ConflictingIsSymmetric` | packages/core/src/domain/task-conflicts.ts:59-98 | conflict is symmetric |
| `TaskConflicts.DetectionIsExact` | packages/core/src/domain/task-conflicts.ts:59-98 | a pair of tasks is named by a conflict, or by a path conflict, if and only if the two conflict that way |
| `TaskConflicts.DetectionIgnoresOrder` | packages/core/src/domain/task-conflicts.ts:59-98 | the report does not depend on the order of the input |
| `ConflictReports.ReportIsExact` | packages/core/src/domain/task-conflicts.ts:59-112 | the report lists, in the order of the two ids and kinds, exactly the shared resources, serialization groups and path overlaps of every pair |
| `ConflictReports.OverlapsAscend` | packages/core/src/domain/task-conflicts.ts:129-158 | the pattern pairs of a path conflict are listed once each, in ascending order |
| `WritableScopes.CommonFileOverlaps` | packages/orchestrator/src/task-scope.ts:35-99 | a file that two scopes both permit makes the scopes overlap |
| `WritableScopes.NoConflictNoCommonFile` | packages/core/src/domain/task-conflicts.ts:59-98 | two tasks without a reported path conflict never change a common file within their scopes |
| `WideStars.CoverageNeedsPlainGlobs` | packages/orchestrator/src/task-scope.ts:145-162 | the segments accept everything the matcher accepts if and only if no run of three or more stars is read as spanning directories |
| `WideStars.OverlapNeedsPlainGlobs` | packages/orchestrator/src/task-scope.ts:145-162 | every plain pattern that matches a common path is seen to overlap, if and only if no run of three or more stars is read as spanning directories |
| `WideStars.WideStarsHideAnOverlap` | packages/core/src/domain/task-conflicts.ts:193-208 | three or more stars before a path text: both patterns match the path, yet the overlap test calls them disjoint |
| `WideStars.WideStarsExample` | packages/core/src/domain/task-conflicts.ts:193-208 | the concrete input a/b and ***/a/b |
| `JsonStrings.QuoteReadsBack` | packages/context/src/stable-serialize.ts:14-15 | quoting a string of UTF-16 units, lone surrogates included, is undone by the reading of section 7 of RFC 8259, whatever follows |
| `CanonicalForm.SameSerializesAlike` | packages/context/src/stable-serialize.ts:5-32 | values that are the same up to key order get the same text |
| `CanonicalForm.ValuesCancel` | packages/context/src/stable-serialize.ts:5-32 | a value can be read off the front of any text it begins |
| `CanonicalForm.SerializeIsCanonical` | packages/context/src/stable-serialize.ts:5-32 | two values get the same text if and only if they are the same up to key order, with everything that is not JSON counted as null |
| `CanonicalForm.SortedKeysAgree` | packages/context/src/stable-serialize.ts:22-23 | the sorted keys depend on nothing but the set of keys |
| `CanonicalText.TextIsCanonicalJson` | packages/context/src/stable-serialize.ts:5-32 | the text of every value is a text of the grammar of RFC 8259, without white space, that denotes the same value with ascending names and null for everything that is not JSON |
| `CanonicalText.SortedKeysAscend` | packages/context/src/stable-serialize.ts:22-23 | the names of an object are written in strictly ascending order of their UTF-16 units |
| `CanonicalText.QuotesAreShortest` | packages/context/src/stable-serialize.ts:14-15 | apart from surrogates, every unit is written in the shortest way that section 7 of RFC 8259 reads as it |
| `CanonicalText.QuotesAreWellFormed` | packages/context/src/stable-serialize.ts:14-15 | a quoted string is well-formed UTF-16, whatever lone surrogates the string holds |
| `ResourceLocks.RequiredResourceLocks` | packages/core/src/domain/resource-lock.ts:111-123 | one lock per non-empty declared resource, strictly ascending, all of the owner |
| `ResourceLocks.PlanResourceAcquisition` | packages/core/src/domain/resource-lock.ts:69-104 | all locks or none: refused exactly when another owner holds a required resource, and then exactly the holders are reported, in order |
| `ResourceLocks.EveryHolderIsNamed` | packages/core/src/domain/resource-lock.ts:69-104 | a refusal names every holder that is in the way, for names without the separator of the keys, in the order of resources, tasks and attempts |
| `ClaimTables.ClaimStore.ClaimTaskExecution` | packages/persistence/src/sqlite/sqlite-runner-store.ts:309-407 | result and new tables of the claim transaction: the checks in their order, the new claim and its locks, or unchanged tables |
| `ClaimTables.ClaimStore.RenewTaskExecution` | packages/persistence/src/sqlite/sqlite-runner-store.ts:409-421 | renews exactly an active claim that no recovery owns, until the lease that is asked for |
| `ClaimTables.ClaimStore.ClaimExpiredExecutionRecovery` | packages/persistence/src/sqlite/sqlite-runner-store.ts:423-445 | hands over exactly an active claim whose lease, and whose recovery lease, have expired |
| `ClaimTables.ClaimStore.AssertRecoveredExecutionOwner` | packages/persistence/src/sqlite/sqlite-runner-store.ts:447-461 | accepts exactly the current, unexpired recovery owner of an active claim |
| `ClaimTables.ClaimStore.ReleaseTaskExecution` | packages/persistence/src/sqlite/sqlite-runner-store.ts:463-508 | settles exactly an active, unexpired, unrecovered claim and deletes its locks |
| `ClaimTables.ClaimStore.ReleaseRecoveredTaskExecution` | packages/persistence/src/sqlite/sqlite-runner-store.ts:510-536 | settles exactly for the current recovery owner and deletes the locks |
| `ClaimTables.ClaimStore.ReleaseResourceLocks` | packages/persistence/src/sqlite/sqlite-runner-store.ts:671-694 | deletes the locks of one task and attempt |
| `ClaimTables.ClaimRefinesPlan` | packages/persistence/src/sqlite/sqlite-runner-store.ts:346-369 | once the earlier checks pass, the claim is refused for resources exactly when the pure policy has a conflict, and is granted otherwise |
| `ClaimTables.ClaimAddsPlannedLocks` | packages/persistence/src/sqlite/sqlite-runner-store.ts:371-389 | a granted claim adds exactly the planned locks and changes no other |
| `ClaimTables.RefusalsAreExact` | packages/persistence/src/sqlite/sqlite-runner-store.ts:309-407 | every answer to a claim is given if and only if its own condition holds and those of the checks before it do not |
| `ClaimRuns.StepKeepsInvariant` | packages/persistence/src/sqlite/sqlite-runner-store.ts:309-536 | every step of every actor keeps the claim invariant |
| `ClaimRuns.InvariantHolds` | packages/persistence/src/sqlite/sqlite-runner-store.ts:309-536 | in every reachable state: one active claim per task, at most the limit in all, execution locks belong to active claims of the same task, and active claims hold all they were granted |
| `ClaimRuns.ActiveClaimsShareNothing` | packages/persistence/src/sqlite/sqlite-runner-store.ts:346-386 | two active claims were never granted a common resource |
| `ClaimFencing.OwnershipNeverReturns` | packages/persistence/src/sqlite/sqlite-runner-store.ts:409-536 | a principal that does not own a claim any more never owns it again |
| `ClaimFencing.WorkerNeverFollowsRecovery` | packages/persistence/src/sqlite/sqlite-runner-store.ts:409-445 | ownership never passes back from a recovery owner to the worker |
| `ClaimFencing.FencedForever` | packages/persistence/src/sqlite/sqlite-runner-store.ts:409-536 | who lost a claim is refused renewal, ownership checks and settlement at every later moment, and its attempts change nothing |
| `ClaimFencing.LapsedForever` | packages/persistence/src/sqlite/sqlite-runner-store.ts:423-461 | a recovery owner whose lease ran out can never act on the claim again |
| `ClaimFencing.SettledForever` | packages/persistence/src/sqlite/sqlite-runner-store.ts:463-536 | a settled claim never changes |
| `ClaimFencing.SettledOnce` | packages/persistence/src/sqlite/sqlite-runner-store.ts:463-536 | a claim is settled at most once |
| `ClaimLives.TablesTellLives` | packages/persistence/src/sqlite/sqlite-runner-store.ts:309-536 | at every moment of every run the row of a claim tells what the steps so far, by their own arguments, have made of it |
| `ClaimLives.LeaseIsTheLastGiven` | packages/persistence/src/sqlite/sqlite-runner-store.ts:409-421 | while a worker owns its claim, the lease is the one given by its claim or its last renewal |
| `ClaimLives.NobodyIsRobbed` | packages/persistence/src/sqlite/sqlite-runner-store.ts:423-445 | a claim passes from its worker to a recovery owner only at or after the end of its lease |
| `ClaimLives.WorkerOwnsUntilLease` | packages/persistence/src/sqlite/sqlite-runner-store.ts:409-445 | before the end of its lease, a worker that has not settled owns its claim |
| `ClaimLives.RenewalBuysItsLease` | packages/persistence/src/sqlite/sqlite-runner-store.ts:409-421 | a renewal by the worker extends the lease to the time it asks for; any other renewal changes nothing |
| `ClaimLives.ExpiredIsTakenOver` | packages/persistence/src/sqlite/sqlite-runner-store.ts:423-445 | a recovery that asks for a claim gets it, until the time it asks for, if and only if the lease and any recovery lease have ended |
| `ClaimLives.OwnersSettle` | packages/persistence/src/sqlite/sqlite-runner-store.ts:463-536 | a claim is settled by exactly the releases of its unexpired owner, with the status they ask for |
| `ExecutionClaimRecovery.ReconcileClaim` | packages/orchestrator/src/execution-claim-recovery.ts:40-88 | a live claim is left alone; an expired one is settled with its task or stays active under the new owner; nothing else is touched |
| `ExecutionClaimRecovery.ReconcileExpired` | packages/orchestrator/src/execution-claim-recovery.ts:36-92 | every active claim gets one outcome, all outcomes hold together at the end, and unexpired claims are unchanged |
| `IntegrationQueue.QueueTable.Enqueue` | packages/persistence/src/sqlite/sqlite-runner-store.ts:728-775 | appends a pending entry with the next sequence number, or refuses duplicates and invalid requests |
| `IntegrationQueue.QueueTable.ClaimNext` | packages/persistence/src/sqlite/sqlite-runner-store.ts:777-832 | claims the first pending entry when none is integrating |
| `IntegrationQueue.QueueTable.Complete` | packages/persistence/src/sqlite/sqlite-runner-store.ts:834-851 | completes exactly the integrating entry of that id |
| `IntegrationQueue.QueueTable.Fail` | packages/persistence/src/sqlite/sqlite-runner-store.ts:853-876 | fails exactly the integrating entry of that id, with a message |
| `IntegrationQueue.QueueTable.Requeue` | packages/persistence/src/sqlite/sqlite-runner-store.ts:878-890 | puts exactly the integrating entry of that id back |
| `IntegrationQueue.InvariantHolds` | packages/persistence/src/sqlite/sqlite-runner-store.ts:728-890 | in every reachable state the entries read finished*, at most one integrating, pending*; sequence numbers, ids and unfinished pairs are unique |
| `IntegrationQueue.ClaimsAreFifo` | packages/persistence/src/sqlite/sqlite-runner-store.ts:795-804 | whenever an entry is claimed, all earlier entries are finished |
| `IntegrationQueue.EntriesStay` | packages/persistence/src/sqlite/sqlite-runner-store.ts:728-890 | entries keep their place, id and request; finished ones never change |
| `IntegrationQueue.RequeueThenClaim` | packages/orchestrator/src/integration-queue-processor.ts:214-217 | a requeue followed by a claim returns the same entry, whatever is enqueued in between |
| `IntegrationQueue.ClaimRefinesSelection` | packages/core/src/domain/integration-queue.ts:101-187 | the store claims exactly the entry the pure policy selects from any listing of the rows, and none when it selects none |
| `IntegrationQueue.StepsChangeRows` | packages/persistence/src/sqlite/sqlite-runner-store.ts:728-890 | what every operation makes of every row, from the shape of the queue alone: only the next row is claimed, only the integrating row is completed, failed or requeued, and everything else stays |
| `IntegrationQueue.EnqueueIsExact` | packages/persistence/src/sqlite/sqlite-runner-store.ts:728-775 | an entry is appended if and only if the request is valid and no row has its id, and no unfinished row its task and attempt |
| `IntegrationDrift.CurrentFastForwards` | packages/core/src/domain/integration-drift.ts:65-106 | a revision classified as current is exactly what a fast-forward takes |
| `IntegrationDrift.DriftKeepsBase` | packages/core/src/domain/integration-drift.ts:65-106 | a current or drifting revision shares its base with the integration history; a drifting base lies strictly below HEAD |
| `CommitGraph.ChainHistory` | packages/git/src/node-git-manager.ts:239-243 | replayed commits add themselves to the history below them and nothing else |
| `GitRepo.RebaseKeepsSound` | packages/orchestrator/src/integration-drift.ts:193-242 | replaying a branch brings no patch of it into a history that has the patch already |
| `GitRepo.MergeKeepsSound` | packages/git/src/node-git-manager.ts:203-224 | a fast-forward only advances HEAD, takes the tip unless histories diverged, and keeps every patch unique |
| `QueueSafety.StepKeepsSound` | packages/orchestrator/src/integration-queue-processor.ts:393-743 | every step, crash and foreign action keeps the integration invariant, and history only grows |
| `QueueSafety.HeadOnlyAdvances` | packages/orchestrator/src/integration-queue-processor.ts:393-513 | over any run with crashes, and fast-forwards by crash recovery, the integration HEAD only moves to descendants of itself |
| `QueueSafety.IntegratedAtMostOnce` | packages/orchestrator/src/integration-queue-processor.ts:153-217 | in every reachable state every patch of every attempt is in the integration history at most once, also after a crash between rebase and fast-forward, and when crash recovery fast-forwards |
| `QueueSafety.VerifiedBeforeDone` | packages/orchestrator/src/integration-queue-processor.ts:219-381 | whenever the processor or its recovery sets DONE, a passed integration verification of the attempt is recorded at a revision of the integration history that contains a tip of its branch |
| `QueueSafety.EvidenceStays` | packages/orchestrator/src/integration-queue-processor.ts:575-651 | that evidence holds at every later moment |
| `QueueSafety.RequeuedIsReclaimed` | packages/orchestrator/src/integration-queue-processor.ts:383-391 | recovery of unintegrated work takes up the very entry it requeued |
| `QueueSafety.SettlingFindsItsEntry` | packages/orchestrator/src/integration-queue-processor.ts:621-723 | a settlement never finds its entry gone |
| `QueueWork.DoneWorkIsIntegrated` | packages/orchestrator/src/integration-drift.ts:15-30 | whenever the processor or its recovery sets DONE, every patch of the revision that was enqueued is in the integration history, then and at every later moment |
| `QueueWork.DoneWorkIsThereOnce` | packages/orchestrator/src/integration-drift.ts:15-30 | it is there exactly once |
| `QueueWork.OnlyFitWorkIsMerged` | packages/orchestrator/src/integration-queue-processor.ts:393-467 | the processor moves HEAD only to the tip of its entry, which was current, or passed its verification after the rebase |
| `QueueWork.OnlyCurrentWorkIsVerified` | packages/orchestrator/src/integration-drift.ts:193-242 | a rebased branch goes to its verification only when it lies on the HEAD of that moment, and beyond it |
| `QueueWork.OnlyIntegratingIsFinished` | packages/orchestrator/src/integration-queue-processor.ts:393-410 | it finishes only tasks that it has seen INTEGRATING while it worked on their entry |
| `QueueOutcomes.CallComesTo` | packages/orchestrator/src/integration-queue-processor.ts:393-513 | what one call comes to, by the facts at its start and the answers it gets: which are failures, cancellations, merges and integrations found |
| `OtherActors.OthersMoveHead` | packages/orchestrator/src/integration-drift.ts:15-19 | a commit of others may move HEAD at any time; it adds itself to the history and carries no patch |
| `OtherActors.AttemptsPrepare` | packages/orchestrator/src/workflow-executor.ts:474-499 | a new attempt has a branch of its own that carries what its base carries, and its own patches |
| `OtherActors.RecoveryForwards` | packages/orchestrator/src/crash-recovery.ts:548-559 | a fast-forward by crash recovery takes HEAD to the tip of the branch if and only if HEAD is behind it |
| `OtherActors.TipsAreEnqueued` | packages/orchestrator/src/workflow-executor.ts:856-891 | an attempt enqueues the tip of its own branch |
| `QueueProcessorRun.IntegrationQueueProcessor.Reconcile` | packages/orchestrator/src/integration-drift.ts:131-242 | the drift reconciliation ends in a failure, in a merge to do, or in an integration found, each if and only if the facts and answers say so; the rebased branch carries all of its work |
| `QueueProcessorRun.IntegrationQueueProcessor.Integrate` | packages/orchestrator/src/integration-queue-processor.ts:454-467 | merge, announcement and verification end verified if and only if the merge works and the checks pass |
| `QueueProcessorRun.IntegrationQueueProcessor.Settle` | packages/orchestrator/src/integration-queue-processor.ts:621-723 | the entry is completed with its task DONE, or failed with the task FAILED or CANCELLED, or left as it was when the transaction is rolled back; other entries and tasks are untouched |
| `QueueProcessorRun.IntegrationQueueProcessor.ProcessClaimed` | packages/orchestrator/src/integration-queue-processor.ts:393-513 | an undisturbed call succeeds if and only if the facts at its start and the answers say so, and otherwise fails or cancels as they say; it settles its entry only; it records exactly the verdicts and the integration that happened; success leaves verified evidence |
| `QueueProcessorRun.IntegrationQueueProcessor.ProcessNext` | packages/orchestrator/src/integration-queue-processor.ts:129-151 | empty and blocked answers change nothing and are right; otherwise exactly the next entry is claimed and settled |
| `QueueProcessorRun.IntegrationQueueProcessor.SettleIntegrated` | packages/orchestrator/src/integration-queue-processor.ts:219-356 | an entry found integrated is completed, after a passed verification of HEAD that is recorded or made now, and failed otherwise; its integration is recorded unless it was |
| `QueueProcessorRun.IntegrationQueueProcessor.RecoverEntry` | packages/orchestrator/src/integration-queue-processor.ts:161-207 | the four classes of an abandoned entry, by containment of its revision, the recorded verification and the existence of its branch |
| `QueueProcessorRun.IntegrationQueueProcessor.TakeUpAgain` | packages/orchestrator/src/integration-queue-processor.ts:214-217 | the requeued entry is claimed again and processed like a new one |
| `QueueProcessorRun.ThrownWorkFails` | packages/orchestrator/src/integration-queue-processor.ts:468-513 | whatever a call throws, and wherever, its entry and its task are settled as failed, and nothing else changes |
| `WorkflowExecutor.AfterReview` | packages/core/src/domain/review-cycle-policy.ts:84-122 | another cycle exactly after a rejected review below the limit, exhaustion exactly at the limit |
| `WorkflowExecutor.Executor.TransitionTask` | packages/orchestrator/src/workflow-executor.ts:930-956 | persists an edge of the transition table or nothing; its assertion cannot fail where it is called |
| `WorkflowExecutor.Executor.RunReviewFixLoop` | packages/orchestrator/src/review-fix-loop.ts:196-268 | legal statuses, fresh stage runs within the limit; approved by the first approving review after exactly the runs of its cycles, exhausted only after the limit of rejections |
| `WorkflowExecutor.Executor.RunIntegration` | packages/orchestrator/src/workflow-executor.ts:747-849 | success requires a passed verification of the integrated revision and records it |
| `WorkflowExecutor.Executor.RunStages` | packages/orchestrator/src/workflow-executor.ts:335-521 | reaching integration means that every review gate, the scope check and the verification passed |
| `WorkflowExecutor.Executor.FailExecution` | packages/orchestrator/src/workflow-executor.ts:1006-1070 | the unchecked failure status is an edge of the table and fits the failure kind |
| `WorkflowExecutor.Executor.Execute` | packages/orchestrator/src/workflow-executor.ts:217-576 | rejected if and only if it may not start; otherwise, for any answers, the whole status history is legal, the outcome fits the final status, and DONE needs all stages, all gates and the recorded integration verification; when no call throws, the outcome is exactly that of the first failure |
| `WorkflowExecutor.RunningMayFail` | packages/orchestrator/src/workflow-failures.ts:49-90 | every running status may move to the status any failure resolves to |
| `WorkflowExecutor.RunsHaveDistinctIds` | packages/orchestrator/src/workflow-executor.ts:958-1004 | all stage runs of an execution have different identities |
| `WorkflowExecutor.StageRunsAreBounded` | packages/orchestrator/src/review-fix-loop.ts:204-267 | no stage runs more often than maxReviewCycles |
| `WorkflowExecutor.LoopEndsOnce` | packages/orchestrator/src/review-fix-loop.ts:196-268 | how a review loop ends is determined by the answers of its cycles: the first approval, the limit, or the first failure |
| `WorkflowExecutor.EndsOnce` | packages/orchestrator/src/workflow-executor.ts:335-576 | how an execution ends when no call throws is determined by the answers: the first failure on the way from the plan to the verified integration, or none |
| `WorkflowDefinition.Validate` | packages/core/src/domain/workflow-definition.ts:70-132 | valid if and only if the id is not blank and the stages are a subsequence of the lifecycle with implementation, verification and integration; every issue reported is real and every real issue is reported |
| `WorkflowDefinition.LocalOrderIsExact` | packages/core/src/domain/workflow-definition.ts:83-121 | the checks of neighbours and duplicates accept exactly the subsequences of the lifecycle |
| `StageRunIds.CycleReadsBack` | packages/orchestrator/src/workflow-executor.ts:1164-1174 | the cycle is read back from the identity by its last marker, for every attempt id, stage and cycle |
| `StageRunIds.CycleReadsBackByBase` | packages/orchestrator/src/code-review-stage.ts:554-568 | the cycle is read back from the identity by its base |
| `StageRunIds.IdsAreDistinct` | packages/orchestrator/src/plan-stage.ts:107-114 | within an attempt, identities are equal exactly for the same stage and cycle |
| `ApprovedPlan.ApprovedPlanOf` | packages/orchestrator/src/workflow-executor.ts:1144-1162 | the last of the usable plans of the highest cycle |
| `ApprovedPlan.HighestApproval` | packages/orchestrator/src/code-review-stage.ts:503-509 | the highest cycle whose review approved |
| `ApprovedPlan.LoadPersistedPlan` | packages/orchestrator/src/code-review-stage.ts:490-533 | the plan of the highest approved cycle, else the last plan of the highest cycle |
| `ApprovedPlan.LoadReviewedPlan` | packages/orchestrator/src/plan-review-stage.ts:392-430 | the plan of the own cycle in a loop, the last usable plan outside |
| `ApprovedPlan.ChoiceIsApproved` | packages/orchestrator/src/workflow-executor.ts:1144-1162 | after an approved loop every choice by cycle is the approved plan |
| `LoopPlans.LoopIsApproved` | packages/orchestrator/src/review-fix-loop.ts:204-258 | the rows of an approved loop, in any order and among the rows of later stages, are one plan per cycle and one approval |
| `LoopPlans.PlansAgree` | packages/orchestrator/src/workflow-executor.ts:342-376 | after an approved plan loop of the executor, implementer and reviewer get the plan of the approved cycle |
| `ApprovedPlan.SamePlan` | packages/orchestrator/src/code-review-stage.ts:476-533 | implementer and reviewer get the plan of the approved cycle, whatever the row orders |
| `ApprovedPlan.ChoiceHoldsAPlan` | packages/orchestrator/src/workflow-executor.ts:1144-1162 | every choice is the text, not blank, of a plan stage that succeeded, and nothing is chosen only when there is none |
| `CrashRecovery.RecoveryEndsInactive` | packages/orchestrator/src/crash-recovery.ts:119-160 | recovery of an active task always ends inactive, with the latest attempt finished |
| `CrashRecovery.CompletedIsIntegrated` | packages/orchestrator/src/crash-recovery.ts:380-608 | completion is reported only for the recorded commit, and only when HEAD contains it |
| `CrashRecovery.RecoveryIsIdempotent` | packages/orchestrator/src/crash-recovery.ts:119-160 | under fixed answers a second recovery does nothing, if and only if the task does not reopen |
| `CrashRecovery.FreshVerificationIsIdempotent` | packages/orchestrator/src/crash-recovery.ts:225-317 | no commit recorded before the end of the verification makes recovery idempotent |
| `CrashRecovery.ReopenedIsCompleted` | packages/orchestrator/src/crash-recovery.ts:380-455 | a task that reopens is reported failed first and completed by the next recovery |
| `CrashRecovery.ReopensForExample` | packages/orchestrator/src/crash-recovery.ts:319-350 | a concrete state that reopens, which the program never stores |
| `CrashRecovery.UnverifiedCompletions` | packages/orchestrator/src/crash-recovery.ts:489-528 | a completion is without a passed integration verification if and only if HEAD contained the commit without a recorded verdict, or the fast-forward was recovery's own |
| `CrashRecovery.CompletesUnverifiedForExample` | packages/orchestrator/src/crash-recovery.ts:489-528 | a concrete task that is completed without a verification |
| `RecoveryOutcomes.RecoveryIsExact` | packages/orchestrator/src/crash-recovery.ts:119-608 | every outcome is answered if and only if the facts call for it: safe to retry for agent work whose worktree is missing or clean at its base, reconciliation for uncommitted work, and so on for checks, cancellation, integration and human decisions |
| `RecoveryOutcomes.RecoveredStateIsExact` | packages/orchestrator/src/crash-recovery.ts:119-923 | the whole state that recovery leaves goes with its outcome: status, attempts, events and HEAD |
| `RecoveryOutcomes.FactsAreNewest` | packages/orchestrator/src/crash-recovery.ts:1103-1118 | the recorded commit, verification and integration verdict that decide are those of the newest event of their kind for the latest attempt |
| `RecoveryOwnership.LostOwnerWritesNothing` | packages/orchestrator/src/crash-recovery.ts:1086-1100 | when the ownership lapses after n transactions of a call, the store stays as those n left it; a later lapse changes nothing |
| `RecoveryOwnership.LostOwnerMovesHead` | packages/orchestrator/src/crash-recovery.ts:548-559 | HEAD moves under a lost owner if and only if all transactions before the fast-forward were accepted, the next one is refused, and Git offers the fast-forward |
| `RecoveryOwnership.LostOwnerMovesHeadForExample` | packages/orchestrator/src/crash-recovery.ts:548-559 | a concrete task whose lost owner moves HEAD |
| `RecoveryOwnership.UnownedMergeIsSettledNext` | packages/orchestrator/src/crash-recovery.ts:489-528 | after such a move the next recovery completes the task without another fast-forward |
| `StoredTasks.InvariantHolds` | packages/orchestrator/src/workflow-executor.ts:930-956 | whatever transactions of executor, coordinator, queue processor, operator and recovery have run: attempts are distinct, events are about them, and the commit fits the status |
| `StoredTasks.CommitMeansIntegrating` | packages/orchestrator/src/workflow-executor.ts:480-499 | the latest attempt of an active stored task has a recorded commit if and only if the task is INTEGRATING |
| `StoredTasks.StoredRecoveryIsIdempotent` | packages/orchestrator/src/crash-recovery.ts:119-160 | no stored task reopens, and a second recovery of one does nothing |
| `CrashRecoveryRun.SequentialCrashRecovery.LatestPayloadOf` | packages/orchestrator/src/crash-recovery.ts:1103-1118 | the newest event of the type for the attempt |
| `CrashRecoveryRun.SequentialCrashRecovery.SettleTask` | packages/orchestrator/src/crash-recovery.ts:657-923 | every status on the way is allowed by the tables; attempts, status and events change in one transaction |
| `CrashRecoveryRun.SequentialCrashRecovery.ReconcileIntegration` | packages/orchestrator/src/crash-recovery.ts:457-608 | the branches over Git and recorded verification, as the recovery function says |
| `CrashRecoveryRun.SequentialCrashRecovery.ReconcileVerifying` | packages/orchestrator/src/crash-recovery.ts:225-317 | the branches over worktree, recorded and rerun verification, as the recovery function says |
| `CrashRecoveryRun.SequentialCrashRecovery.ReconcileFailedTask` | packages/orchestrator/src/crash-recovery.ts:380-455 | the branches for failed tasks, as the recovery function says |
| `CrashRecoveryRun.SequentialCrashRecovery.ReconcileTask` | packages/orchestrator/src/crash-recovery.ts:119-160 | the whole recovery is the recovery function, whose outcomes `RecoveryOutcomes` pins |
| `CrashRecoveryRun.SequentialCrashRecovery.ReconcileTaskOwned` | packages/orchestrator/src/crash-recovery.ts:162-170 | one owner at a time, given up at the end; however many transactions its lease lasts for, the outcome is that of the recovery function, and nothing is written after the first refusal |
| `TaskSelection.RunnableIffAllConditions` | packages/core/src/domain/task-selection.ts:120-151 | runnable exactly when all canonical conditions hold |
| `TaskSelection.ReasonsInOrder` | packages/core/src/domain/task-selection.ts:120-169 | the reported reason holds, with its details, and no reason that is checked earlier does; a task without a reason has none |
| `TaskSelection.SelectRunnableTasks` | packages/core/src/domain/task-selection.ts:98-118 | exactly the runnable tasks in input order, and for every other task its first failing condition |
| `TaskSelection.NotDoneDependencies` | packages/core/src/domain/task-selection.ts:157-169 | the dependencies that are not done, in order |
| `TaskSelection.CountActive` | packages/core/src/domain/parallelism-capacity.ts:99-109 | the number of active statuses |
| `TaskSelection.RemainingSlots` | packages/core/src/domain/parallelism-capacity.ts:118-151 | free slots exactly below the maximum; invalid arguments refused |
| `Dispatch.HasConflict` | packages/orchestrator/src/task-execution-coordinator.ts:160-171 | true exactly when some other task conflicts with this one |
| `Dispatch.TakeTurn` | packages/orchestrator/src/task-execution-coordinator.ts:143-210 | the answer is decided by the facts of the turn: a running task, a free slot, a conflict with the active or admitted tasks, and the answer to the claim, in this order |
| `Dispatch.DispatchAvailable` | packages/orchestrator/src/task-execution-coordinator.ts:109-221 | every candidate in turn is admitted or deferred exactly as its facts say, until the capacity is used up or the store throws; so admitted tasks are pairwise conflict-free, free of conflicts with active tasks, within the free slots and in order of priority and id |
| `Dispatch.CandidatesAreOrdered` | packages/core/src/domain/scheduling-priority.ts:23-50 | the candidates are exactly the runnable tasks, strictly ascending by priority and id |
| `Dispatch.NotAdmittedIsJustified` | packages/orchestrator/src/task-execution-coordinator.ts:143-210 | a runnable task that is not admitted has a reason of its own or falls to the capacity |
| `Dispatch.AdmittedIsRunnable` | packages/orchestrator/src/task-execution-coordinator.ts:119-140 | an admitted task is ready, unclaimed and has all dependencies done |
| `Dispatch.AdmitTasks` | packages/orchestrator/src/task-execution-coordinator.ts:143-210 | the same of the admission loop |
| `Dispatch.EntryCountsBoth` | packages/orchestrator/src/task-execution-coordinator.ts:127-142 | the executions that count at the beginning are the active claims or the active tasks, whichever are more |
| `DependencyClosure.DoneStays` | packages/core/src/domain/task-state-machine.ts:16-44 | DONE is never left |
| `DependencyClosure.AdmittedDependenciesStayDone` | packages/core/src/domain/task-selection.ts:98-169 | the dependencies of an admitted task are done then and at every later moment |
| `DependencyClosure.StuckTasksAreNeverAdmitted` | packages/core/src/domain/task-selection.ts:153-169 | tasks on a dependency cycle, or waiting for a missing task, are never admitted, as long as crash recovery completes no failed one of them |
| `DependencyClosure.StepKeepsUntouched` | packages/core/src/domain/task-selection.ts:153-169 | a step leaves such tasks unadmitted, idle and not done, if and only if it is not such a completion |
| `ExecutionEndings.OutcomeHasItsEnding` | packages/orchestrator/src/task-execution-coordinator.ts:316-336 | every outcome and status that the contract of the executor allows is that of an ending of the scheduler |
| `ExecutionEndings.ExecuteAdmitted` | packages/orchestrator/src/task-execution-coordinator.ts:223-276 | an admitted execution leaves the task in the status of its ending; DONE and INTEGRATING endings have passed all gates |
| `UnattendedScheduler.HandleFailure` | packages/orchestrator/src/task-execution-coordinator.ts:338-398 | an unexpected failure asks for recovery if and only if the task is active, still queued, or the store fails; otherwise it is FAILED, unless it is DONE |
| `UnattendedScheduler.Scheduler.DispatchAvailable` | packages/orchestrator/src/task-execution-coordinator.ts:212-276 | the executions and claims of the dispatch are logged as they are; executions without need of recovery only leave READY, and progress does leave it |
| `UnattendedScheduler.Scheduler.ProcessNext` | packages/orchestrator/src/unattended-scheduler.ts:76-99 | the outcome is logged as it is; an integration uses up a pending entry; empty means drained |
| `UnattendedScheduler.Scheduler.DrainQueue` | packages/orchestrator/src/unattended-scheduler.ts:75-99 | the inner loop always ends: drained if its last answer was empty, blocked if it was an integrating entry, and in no other case |
| `UnattendedScheduler.Scheduler.Collect` | packages/orchestrator/src/unattended-scheduler.ts:145-163 | completed and failed ids are exactly those of the logged answers; completed ids are done |
| `UnattendedScheduler.ReportsAreExact` | packages/orchestrator/src/unattended-scheduler.ts:145-163 | a run reports exactly the tasks that completed, and those that failed, in some cycle |
| `UnattendedScheduler.Scheduler.RunCycle` | packages/orchestrator/src/unattended-scheduler.ts:72-130 | a cycle ends the run as quiescent if and only if nothing progressed, nothing was integrated, and nothing is active or needs recovery; as blocked if and only if the logged answers call for it; one that goes on strictly lowers ready tasks, or drains pending entries |
| `UnattendedScheduler.Scheduler.Run` | packages/orchestrator/src/unattended-scheduler.ts:54-135 | returns after at most two cycles more than there were ready tasks, for any executions and integrations; the last cycle, and no earlier one, called for the end it reports; quiescent means drained; completed tasks are done |

## Left out

- OverlapNeedsPlainGlobs: stated for patterns without a slash, and for patterns with one but without a trailing slash and without empty or `**` segments; a directory tail or a `**` may cover the extra levels of a wide star anyway, as in `***/*/`.
- CoverageNeedsPlainGlobs: stated for patterns with a slash, without a trailing slash and without empty or `**` segments; beside a `**` the extra levels of a wide star may be covered anyway.
- NoConflictNoCommonFile: speaks of paths whose segments are not empty, as repository paths are.
- PatternMatchesWhatFits: speaks of paths whose segments are not empty, as repository paths are.
- Execute: which outcome it comes to is stated for executions in which no call throws; one that throws may leave the status that any failure leaves.
- DifferentNamesExclude: other mixed patterns are covered by the exactness of the overlap test on their segments.
- Run: executions and integrations are answers from outside; that executions start only from READY tasks is what `Dispatch` proves, and how they end is what `ExecutionEndings` proves of the executor.
- CommonFileOverlaps: needs patterns whose star runs are not read as spanning directories unless they are exactly `**`.
- IntegratedAtMostOnce: one processor at a time; crash recovery, which leaves tasks with an open queue entry alone, does not merge the very branch that the processor is rebasing; commits of others carry no task patch.
- FencedForever: recovery owner ids are fresh, as random ids are.
- RecoveryIsIdempotent: answers of Git and the checks stay fixed, and the store does not fail in between.
- StoredRecoveryIsIdempotent: a worker that has lost its claim writes no more; attempts have fresh ids, as the program numbers them.
- LostOwnerWritesNothing: the worktree of the task is not part of the state; a lost owner may still have run the checks and committed in it.
- ReconcileExpired: speaks of task recoveries that return; one that throws ends the loop and leaves the claims after it as they were.
- StuckTasksAreNeverAdmitted: as long as crash recovery does not complete a failed task of the set, which needs its commit in HEAD.
- Text is compared and matched by Unicode characters in patterns and ids, where the program uses UTF-16 units; canonical serialization does use UTF-16 units.
- The decimal text of numbers (Number::toString of ECMAScript) is taken as given; distinct finite numbers other than the two zeros have distinct texts. Holes of sparse arrays are not modelled.
- The regular-expression engine is modelled by the meaning of the few kinds of terms the compiler emits; that the text reads as these terms is `ScopeRegex.SourceReadsBack`.
- SQL, JSON columns, migrations and foreign keys: tables are maps or sequences, unique indexes are checks and invariants, a thrown persistence error is a refused result.
- Acquiring locks for an attempt and releasing locks by task alone: no modelled flow uses them; releasing by task and attempt never matches a lock of an execution.
- Heartbeat timers and promises: renewals are steps that may happen at any time.
- The boolean answer of the claim release after an integration is ignored by the program, so nothing is claimed about the claim after a settlement.
- Attempt records, stage-run records of the processor, worktree cleanup and message texts; events are kept as far as a decision reads them, and the `from` fields of recovery events are not modelled.
- Rebase and fast-forward are atomic and a branch is checked out in its own worktree; a rebase replays the branch's own patches that the new base lacks, once each, in some order, which covers linear task branches.
- Completing a task by crash recovery needs no recorded integration verification, so "verified before DONE" is stated for the queue processor and the workflow executor only; which completions lack one is `CrashRecovery.UnverifiedCompletions`.
- Routing of agents, context packs, prompts, process spawning, the command line, configuration files and the older single-task path.
- `reconcileUnfinished` and the listing functions, which apply the modelled operations to every row.
