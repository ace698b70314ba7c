# Verification of the orchestrator's core

A Dafny model of the parts of the orchestrator that carry state, branching and concurrency, with machine-checked proofs
of what they keep. `dafny verify dfyconfig.toml` checks everything. Nothing here runs the TypeScript program; every
statement below is about the model, which follows the code line by line where it decides something.

The files, by component:

- **Task lifecycle.** `Graph` (dependency graphs and the expansion of a node into two), `MergePreview` (layered
  batches), `Backlog` (selection, and the splitting of a task), `Lifecycle` (how runs and operators change the state,
  in place), `LifecycleRuns` (whole-run invariant, progress, termination), `LifecycleFailures` (what failures and
  operators do to a task, and that the bound is attained), `LifecycleOrder` (completion in dependency order),
  `LifecycleBudget` (the step limit).
- **Versioned state.** `StateStore` (the store in memory), `PostgresStore` (calls that load outside their transaction,
  as interleaved steps), `TaskPlan` and `TaskRun` (one run with its working copy against a store that others write to).
- **Leases.** `LockStore` (the fenced lease store, the lease handle, the heartbeat), `RedisLock` (its form over single
  Redis commands), `KeyedMutex` (the in-process queue per key).
- **Evidence and keys.** `EvidenceChain` (the hash chain), `CanonicalJson` (canonical text and a parser for it),
  `IdempotencyKey`, `EvidenceHash` (the checksum as computed). Of SHA-256 only the length of its digests is assumed: where
  two digests could coincide, the collision is one of the stated outcomes.
- **Side effects.** `Dedup` (the deduplication registry), `GitLifecycle` (commit, push, draft pull request),
  `MutationPipeline`, `Migrations`.
- **Shared.** `Sorting` (the stable array sort), `Options`.

Classes stand where the source updates fields in place: their methods are proved against functions on values, and the
theorems about runs and interleavings are stated on those functions. Executors, clocks, hash functions, the order of
strings, the other clients of a store and the moments at which guards and executors throw are parameters, so the
theorems hold for all of them. Protocols are state machines whose steps are the points at which other clients can get in
between.

## Where the code keeps less than one might expect

Each of these is a proved statement. Where the property holds under a condition, that condition is part of it.

- A split stores its parts under derived ids without looking whether those are taken: `SplitOverwritesIffTaken`,
  `SplitCanOverwrite`.
- Replaying a dead-lettered failure makes a task with spent retries the active one, and `shouldStopRun` then stops every
  later run before it selects anything: `ReplayWedges`, `WedgedForGood`.
- The step count is stored with the state and nothing resets it, so `maxStepsPerRun` bounds the completions of all runs
  together: `CompletionsAreBudgeted`, `SpentForGood`.
- A run that selects its own task adopts the store's revision without its contents
  (`packages/execution/src/orchestrator.ts:256`), and its final save drops exactly what arrived in between:
  `TaskRunner.Run`, `SelectedRunCanLoseArtifact`.
- Recording a run step moves no revision, so the final save of any run keeps, of the steps in the store, only those it
  loaded and those it recorded since its start; a foreign step, and the selection's own, are dropped:
  `TaskRunner.Run`, `RunCycle`, `ForeignStepCanBeLost`.
- The selection's own step is recorded under the run's id before `startRun` resets the chain, so listing the whole run
  reports an integrity violation: `RestartIsReported` says exactly when, `RestartsAreReported` for any history of
  recordings and starts. In memory this lasts until the run saves, since the save drops that step; the PostgreSQL log
  keeps it.
- The PostgreSQL listing orders a page by descending instant without a tie-breaker, and the verification sorts it
  stably. Steps of one instant may therefore be returned in either order, and if the later one comes first they are
  reported as a broken chain: `PageVerifiesIffInOrder`, `NewestFirstVerifiesIffStrict`.
- Redis grants need not come in token order, because INCR and SET NX are two commands: `GrantOrderCanInvert`. Tokens
  are unique all the same, `GrantOrderInvertsIff` says when the order is inverted, and `GuardedGrantsIncrease` under
  which guard it is not.
- The heartbeat interval never goes below one tick, so a time to live of one tick cannot be renewed:
  `HeartbeatNeedsTwoTicks`.
- The git lifecycle finalizes without naming an owner, which the registry does not check:
  `OwnerlessFinalizeBreaksExclusion`. `ExclusionBrokenIff` says exactly when a reservation is granted twice.
- A push that fails after a successful commit is not tried again for half an hour: a second call finds the commit's key
  blocked and tries nothing: `CompleteAgain`.
- The gates of risky changes flag that a run waits; they do not hold back the push: `RiskGates`, `Complete`.
- A pipeline stage whose `maxAttempts` is below one leaves no evidence and does not stop the run: `SilentlySkipped`,
  `PassedMeansAllSucceeded`. A compensation that throws after a reported failure produces a second failed entry and a
  second compensation: `RepoMutationPipeline.Fail`.
- A PostgreSQL caller that names a revision beyond the current one commits over other clients' writes:
  `FutureRevisionLosesWrites`; that this is the only such case is `FaithfulIffNotAhead`.
- `markTaskDone` appends a summary artifact in memory but not in PostgreSQL; the model gives each store its own form.

## Model

| member | source | states |
|---|---|---|
| `MergePreview.BuildMergePreview` | packages/agents/src/default-roles.ts:1259-1302 | for any backlog the batches hold every task exactly once, a task outside the fallback batch sits one batch after as many as its longest dependency chain has links, the fallback batch is last and holds exactly the tasks that wait for a cycle or a missing id, each batch is sorted by id; it terminates |
| `MergePreview.NoLayeringIsShallower` | packages/agents/src/default-roles.ts:1272-1299 | no assignment of layers that respects the dependencies of the tasks that can be ordered puts one of them earlier than its chain length, in backlogs with cycles and missing ids too |
| `MergePreview.NoPreviewIsShorter` | packages/agents/src/default-roles.ts:1259-1302 | whatever the backlog, any list of batches that respects the dependencies of the tasks that can be ordered has at least as many batches as the preview has without its fallback |
| `MergePreview.AllRemainingHopeless` | packages/agents/src/default-roles.ts:1278-1287 | when no remaining task is ready, every remaining task waits for a cycle or a missing id |
| `Backlog.SelectNextTaskIsBest` | packages/workflow/src/policies.ts:33-59 | selection fails exactly when no task is executable, and otherwise returns the one executable task that is preferred to all others, whatever the order of the record |
| `Backlog.SelectedIsReady` | packages/core/src/backlog.ts:87-105 | selection returns a task that is to do, not listed as blocked, valid and with nothing unfinished to wait for, and nothing only if there is none |
| `TaskSplitting.CriteriaSurvive` | packages/workflow/src/task-splitting.ts:44-54 | both parts have criteria, and the parent's criteria are all handed on, in order |
| `TaskSplitting.SplitStores` | packages/execution/src/failure/failure-handler.ts:67-90 | what a split stores under each id, and what it does to every other task |
| `TaskSplitting.SplitPreservesPrecedence` | packages/execution/src/failure/failure-handler.ts:139-160 | with fresh part ids: other tasks precede each other as before, what had to precede the parent precedes both parts, what the parent had to precede is preceded by the second part, and no cycle appears |
| `TaskSplitting.EdgesAfterSplit` | packages/execution/src/failure/failure-handler.ts:139-160 | the edges after a split are exactly the old ones with the parent's node expanded into a chain of two |
| `TaskSplitting.SplitOverwritesIffTaken` | packages/execution/src/failure/failure-handler.ts:79-90 | every stored task keeps its origin if and only if both derived ids are free (the code never looks) |
| `TaskSplitting.SplitCanOverwrite` | packages/workflow/src/task-splitting.ts:10-42 | a concrete backlog in which a split replaces an unrelated task and drops its criteria |
| `Graph.ExpansionKeepsPrecedence` | packages/execution/src/failure/failure-handler.ts:139-160 | replacing a node by a chain of two keeps the precedence of all other nodes, both directions |
| `Graph.ExpansionKeepsAcyclic` | packages/execution/src/failure/failure-handler.ts:139-160 | and creates no cycle |
| `Backlog.SelectionIsLexicographic` | packages/core/src/backlog.ts:60-67 | no executable task is more urgent than the selected one; among equals come split parts, then fewer retries, then the id |
| `TaskSplitting.PartsStayUrgent` | packages/workflow/src/task-splitting.ts:56-66 | the parts are to do, belong to the parent's feature and are never less urgent |
| `Lifecycle.RunState.Complete` | packages/execution/src/task/task-runner.ts:216-240 | the new state of a completed task: status, list, active task, step count and the two summaries |
| `Lifecycle.RunState.HandleFailure` | packages/execution/src/failure/failure-handler.ts:33-65 | the new state after a failure is the record of the failure followed by a retry, a split or a block |
| `Lifecycle.RunState.SplitForFailure` | packages/execution/src/failure/failure-handler.ts:67-114 | the split written in place equals the graph transformation whose meaning is preserved |
| `Lifecycle.RunState.RewriteSupersededDependencies` | packages/execution/src/failure/failure-handler.ts:139-160 | the loop over all tasks, in any order, rewrites exactly the dependants of the parent |
| `Lifecycle.RunState.BlockForFailure` | packages/execution/src/failure/failure-handler.ts:116-136 | the new state after a block |
| `Lifecycle.RunState.Resume` | packages/application/src/control-plane-service.ts:67-95 | a dead-lettered failure is resumed and its blocked task reopened; any other id is refused and changes nothing |
| `Lifecycle.RunState.Replay` | packages/application/src/control-plane-service.ts:97-125 | a replay marks the failure and makes its task the active one |
| `Lifecycle.ValidateProjectState` | packages/core/src/project-state.ts:439-515 | the validator lists exactly the referential issues the state has, so it stays silent exactly on the clean states |
| `Lifecycle.ValidateBacklogTask` | packages/core/src/backlog.ts:69-85 | the issues of one task on its own, and that there are none exactly when the task is valid |
| `LifecycleRuns.FreshBacklogInv` | packages/core/src/project-state.ts:350-396 | a valid acyclic backlog that nobody has worked on satisfies the invariant |
| `LifecycleRuns.StepKeepsInv` | packages/execution/src/failure/failure-handler.ts:33-136 | every completion, retry, split, block and resume keeps the state clean, the graph acyclic, no live dependency on a superseded task, and the id lists in agreement with the statuses; none of them is turned away by validation |
| `LifecycleRuns.RunKeepsInv` | packages/core/src/project-state.ts:406-530 | the same over whole runs |
| `LifecycleRuns.TodoWaitsForMover` | packages/workflow/src/policies.ts:33-59 | every task to do can run, or waits for one that can run or is blocked |
| `LifecycleRuns.SelectionFindsWork` | packages/workflow/src/policies.ts:33-59 | selection returns a task whenever one is to do and none is blocked |
| `LifecycleOrder.StepKeepsOrder` | packages/execution/src/failure/failure-handler.ts:33-160 | no completion, retry, split, block, resume or replay leaves a finished task with an unfinished dependency |
| `LifecycleOrder.CompletionEffect` | packages/execution/src/task/task-runner.ts:216-240 | a completion finishes its task, lists it once, spends a step, and changes no other task and no count |
| `LifecycleOrder.RunKeepsOrder` | packages/core/src/backlog.ts:87-105 | over whole runs, with splits and rewired dependencies, nothing is finished before what it depends on |
| `LifecycleOrder.FreshRunsKeepOrder` | packages/core/src/backlog.ts:87-105 | every run from a fresh backlog keeps the invariant and the order |
| `LifecycleOrder.PredecessorsAreDone` | packages/core/src/backlog.ts:87-105 | a run only ever works on a task all of whose predecessors, direct or not, are finished |
| `LifecycleRuns.StepLowersMeasure` | packages/workflow/src/policies.ts:84-94 | every handled outcome lowers the measure, and only a resume can raise it |
| `LifecycleRuns.RunsTerminate` | packages/workflow/src/policies.ts:84-94 | without operator resumes, N tasks to do allow at most 3 * max(1, limit) * N handled outcomes |
| `LifecycleFailures.FailureEffect` | packages/workflow/src/policies.ts:84-94 | a failure counts as one retry; the tasks are left alone exactly while the count stays below the limit, else a task that was never split is superseded by its two parts and a part is blocked, and only the latter is a dead letter |
| `LifecycleFailures.PartsAreListed` | packages/execution/src/failure/failure-handler.ts:74-90 | the parts are listed in the parent's feature after the tasks listed there, and no other feature changes |
| `LifecycleFailures.InterruptionEffect` | packages/execution/src/failure/failure-handler.ts:39-50 | a run that dies after recording a failure has counted it and left its task as it was |
| `LifecycleFailures.RetriesCountFailures` | packages/execution/src/failure/failure-handler.ts:33-65 | over whole runs the retry count of a task is the number of its failures |
| `LifecycleFailures.GivenUpOnlyAfterFailures` | packages/workflow/src/policies.ts:84-94 | no task is superseded or blocked before it has failed max(1, limit) times, over however many runs and whatever operators do |
| `LifecycleFailures.BoundIsAttained` | packages/workflow/src/policies.ts:84-94 | the bound 3 * max(1, limit) cannot be improved: every fresh backlog of one task that was never split, with steps to spare, has a run of exactly that many handled outcomes |
| `LifecycleFailures.MayRun` | packages/workflow/src/policies.ts:15-31 | a task may run if and only if steps are left, no active task has spent its retries, it is to do and all it depends on is finished |
| `LifecycleFailures.ResumeReopens` | packages/application/src/control-plane-service.ts:67-95 | resuming a dead letter puts its blocked task back to do, takes it off the blocked list, marks the failure, and changes nothing else |
| `LifecycleFailures.ReplayEffect` | packages/application/src/control-plane-service.ts:97-125 | replaying a dead letter marks it, makes its task the active one, and changes nothing else |
| `LifecycleFailures.CommandsNeedDeadLetter` | packages/application/src/control-plane-service.ts:67-125 | resume and replay apply exactly when the first failure of that id is a dead letter |
| `LifecycleRuns.ReplayWedgesIff` | packages/application/src/control-plane-service.ts:106-117 | a replay makes the project stop every run exactly when the retries of the failed task are spent |
| `LifecycleRuns.ReplayWedges` | packages/workflow/src/policies.ts:84-94 | in a run they always are, since a failure is dead-lettered only then |
| `LifecycleRuns.WedgedForGood` | packages/workflow/src/policies.ts:15-31 | after that no task is ever run again, whatever operators resume or replay |
| `LifecycleBudget.CompletionsAreBudgeted` | packages/workflow/src/policies.ts:15-21 | each completion spends one step of the stored count for good, so the limit bounds the completions of all runs together |
| `LifecycleBudget.SpentForGood` | packages/workflow/src/policies.ts:15-21 | once the count has reached the limit no task is ever run again |
| `LockStore.InMemoryDistributedLockStore.Acquire` | packages/state/src/locks/distributed-lock.store.ts:61-78 | reply and new state of an acquire |
| `LockStore.InMemoryDistributedLockStore.Renew` | packages/state/src/locks/distributed-lock.store.ts:80-101 | reply, with the lease in the way of a refusal, and new state of a renewal |
| `LockStore.InMemoryDistributedLockStore.Release` | packages/state/src/locks/distributed-lock.store.ts:103-119 | reply, with the lease in the way of a refusal, and new state of a release |
| `LockStore.InMemoryDistributedLockStore.Validate` | packages/state/src/locks/distributed-lock.store.ts:121-133 | reply of a validation, with the lease in the way of a refusal; nothing changes |
| `LockStore.ExecutionLeaseHandle.Renew` | packages/execution/src/leases/execution-lease-authority.ts:94-123 | the handle renews under its own token for ever; a refusal leaves its cached lease as it was |
| `LockStore.ExecutionLeaseHandle.Validate` | packages/execution/src/leases/execution-lease-authority.ts:124-144 | validation through the handle |
| `LockStore.ExecutionLeaseHandle.Release` | packages/execution/src/leases/execution-lease-authority.ts:159-183 | release through the handle |
| `LockStore.AcquireGrantedIffFree` | packages/state/src/locks/distributed-lock.store.ts:61-78 | an acquire is granted if and only if no lease on the resource is live; the lease is live at exactly the instants before it expires, and a refusal shows the live lease |
| `LockStore.HolderRequests` | packages/state/src/locks/distributed-lock.store.ts:80-133 | a renewal or a validation succeeds exactly for a live lease of this owner and token, a release exactly if the record carries both, and each has its own effect |
| `LockStore.RefusalReason` | packages/state/src/locks/distributed-lock.store.ts:141-158 | a refusal names the first thing that is wrong |
| `LockStore.GrantHolds` | packages/state/src/locks/distributed-lock.store.ts:61-133 | a granted lease is live at every instant before it expires, whatever others request, as long as its holder neither renews nor releases it |
| `LockStore.AlwaysFiled` | packages/state/src/locks/distributed-lock.store.ts:61-119 | whatever is requested of a new store, it files each lease under its own resource |
| `LockStore.TokensIncrease` | packages/state/src/locks/distributed-lock.store.ts:135-138 | each grant, on any resource and under any clock, carries a larger token than all before it |
| `LockStore.RegrantFencesEarlierHandles` | packages/state/src/locks/distributed-lock.store.ts:80-133 | once a resource is granted again, no earlier handle ever validates, renews or releases |
| `LockStore.GoneForGood` | packages/state/src/locks/distributed-lock.store.ts:80-133 | a token that left its resource is refused for ever |
| `LockStore.ExpiredForGood` | packages/state/src/locks/distributed-lock.store.ts:141-158 | under a nondecreasing clock a handle that is invalid once is never valid again |
| `LockStore.GrantIsExclusive` | packages/state/src/locks/distributed-lock.store.ts:61-78 | after a grant every other handle on the resource is invalid from then on |
| `LockStore.HeartbeatCovers` | packages/execution/src/orchestrator.ts:351-408 | if each renewal lands within the slack its interval leaves, the lease is valid at every instant and every renewal succeeds |
| `LockStore.IntervalIsHalf` | packages/execution/src/orchestrator.ts:356-357 | the heartbeat interval is half the time to live, rounded down, and at least one tick |
| `LockStore.HeartbeatNeedsTwoTicks` | packages/execution/src/orchestrator.ts:356-357 | an exactly timed first renewal succeeds if and only if the time to live is at least two ticks |
| `RedisLock.RunRefinesLockStore` | packages/execution/src/locks/distributed-lock-store-factory.ts:64-120 | over every interleaving from an empty server the successful requests, in the order of the commands at which they take effect, are a behaviour of one in-memory lock store over the same leases; key expiry is the only other change and every token is fresh on its resource |
| `RedisLock.StepRefinesLockStore` | packages/execution/src/locks/distributed-lock-store-factory.ts:64-120 | the command at which a request succeeds has the reply and the effect of the in-memory operation, every other command leaves the leases alone |
| `RedisLock.AcquireSucceedsIff` | packages/execution/src/locks/distributed-lock-store-factory.ts:67-77 | an acquire takes the next token and succeeds exactly when the key is free at its second command, whatever others do in between |
| `RedisLock.HolderSucceedsIff` | packages/execution/src/locks/distributed-lock-store-factory.ts:78-120 | a renewal, validation or release that the memory store would not refuse succeeds, with that store's reply, exactly when its second command finds the lease unchanged |
| `RedisLock.StepKeepsInv` | packages/execution/src/locks/distributed-lock-store-factory.ts:64-120 | what every command of every client, and every key expiry, keeps |
| `RedisLock.TokensAreUnique` | packages/execution/src/locks/distributed-lock-store-factory.ts:67-76 | no token is granted twice on a resource |
| `RedisLock.GoneForGood` | packages/execution/src/locks/distributed-lock-store-factory.ts:78-120 | a token the key no longer holds never renews, validates or releases again |
| `RedisLock.GrantOrderInvertsIff` | packages/execution/src/locks/distributed-lock-store-factory.ts:67-76 | over all runs from an empty server, of two grants on one resource the earlier carries the larger token exactly when its INCR came after the INCR of the later |
| `RedisLock.GrantsIff` | packages/execution/src/locks/distributed-lock-store-factory.ts:67-77 | the grants of that statement are the commands that answer with a granted lease |
| `RedisLock.GuardedGrantsIncrease` | packages/execution/src/locks/distributed-lock-store-factory.ts:67-76 | if INCR on a resource runs only while no other client is between INCR and SET NX on it, successive grants carry increasing tokens |
| `RedisLock.GrantOrderCanInvert` | packages/execution/src/locks/distributed-lock-store-factory.ts:69-71 | an instance: a run in which the second grant carries the smaller token |
| `StateStore.InMemoryStateStore.CommitSnapshot` | packages/state/src/in-memory/InMemoryStateStore.ts:240-261 | the compare-and-swap on the revision, with its two refusals |
| `StateStore.InMemoryStateStore.RecordFailure` | packages/state/src/in-memory/InMemoryStateStore.ts:100-115 | new state and outcome; the returned retry count is one more than before |
| `StateStore.InMemoryStateStore.RecordArtifact` | packages/state/src/in-memory/InMemoryStateStore.ts:117-131 | new state and outcome; a known artifact id is not appended again |
| `StateStore.InMemoryStateStore.RecordDecision` | packages/state/src/in-memory/InMemoryStateStore.ts:133-139 | new state and outcome |
| `StateStore.InMemoryStateStore.RecordPolicyDecision` | packages/state/src/in-memory/InMemoryStateStore.ts:142-151 | new state and outcome |
| `StateStore.InMemoryStateStore.MarkTaskDone` | packages/state/src/in-memory/InMemoryStateStore.ts:202-238 | new state and outcome |
| `StateStore.InMemoryStateStore.RecordRunStep` | packages/state/src/in-memory/InMemoryStateStore.ts:165-200 | the step is appended and the revision stays |
| `StateStore.ChangeAddsItsEntry` | packages/state/src/in-memory/InMemoryStateStore.ts:100-151 | a recorded failure, artifact, decision or policy decision is appended to its own list and nothing else changes; a known artifact id adds nothing; only a missing task is refused |
| `StateStore.MarkDoneFinishes` | packages/state/src/in-memory/InMemoryStateStore.ts:202-238 | marking a task done finishes that task and no other, lists its id once and clears the active task |
| `StateStore.SwapComparesRevisions` | packages/state/src/in-memory/InMemoryStateStore.ts:240-261 | a write goes through exactly when the state still has the revision it counts on, and otherwise changes nothing |
| `PostgresStore.EveryRecordExtendsItsPredecessor` | packages/state/src/postgres/PostgresStateStore.ts:256-380 | for every interleaving in which callers name no revision beyond the one current at their load, each recorded snapshot is its direct predecessor plus exactly that change |
| `PostgresStore.InsertRefinesMemoryStore` | packages/state/src/postgres/PostgresStateStore.ts:514-551 | a successful insert is the memory store's operation on the state of that moment |
| `PostgresStore.InsertCommitsIff` | packages/state/src/postgres/PostgresStateStore.ts:514-551 | an insert goes through exactly when its revision is still the current one and its entry is not logged yet; otherwise no row and no log entry is added |
| `PostgresStore.SaveRefinesMemoryStore` | packages/state/src/postgres/PostgresStateStore.ts:514-568 | a wholesale save is the memory store's, on the state of its moment |
| `PostgresStore.CommittedEntryStays` | packages/state/src/postgres/PostgresStateStore.ts:256-380 | the entry of a call that committed is in its own row and in every later one up to the next wholesale save, however the calls interleave |
| `PostgresStore.RunLosesNoIncrement` | packages/state/src/postgres/PostgresStateStore.ts:256-298 | over whole runs of a fresh project, between two revisions without a wholesale save the retry count grows by exactly one per recorded failure |
| `PostgresStore.RetriesAreFailures` | packages/state/src/postgres/PostgresStateStore.ts:256-298 | without a wholesale save the retry count of a project that starts without any is the number of its recorded failures |
| `PostgresStore.NoIncrementLost` | packages/state/src/postgres/PostgresStateStore.ts:256-298 | the same for any rows in which each extends its predecessor |
| `PostgresStore.StepKeepsInv` | packages/state/src/postgres/PostgresStateStore.ts:514-568 | what every step of every client keeps |
| `PostgresStore.HandedOutIsDisciplined` | packages/state/src/postgres/PostgresStateStore.ts:256-298 | a caller that names only revisions the store gave it names none beyond the current one |
| `PostgresStore.FaithfulIffNotAhead` | packages/state/src/postgres/PostgresStateStore.ts:256-298 | a call whose entry is not logged yet is recorded, whatever others do before its insert, as its direct predecessor plus exactly its change, if and only if it names no revision beyond the one current at its load |
| `PostgresStore.FutureRevisionLosesWrites` | packages/state/src/postgres/PostgresStateStore.ts:269-296 | a caller that names a revision beyond the current one commits over the writes of others, whatever the state and the change, unless its entry violates the key of its log |
| `TaskRun.TaskRunner.Run` | packages/execution/src/task/task-runner.ts:53-294 | the history of the run's accesses is that of the store; in it the run saves at most once, and once unless it throws; of its direct predecessor's entries the saved snapshot lacks exactly those overlooked when a revision was adopted, none for a forced task; its run steps are exactly the loaded ones and those recorded since the start, which are those of the roles in order; the flush never raises the revision. Review and tests alone decide whether a run that does not throw completes its task or handles a failure, and what the snapshot then holds, list by list, is said from the loaded state and the plan; a run that nobody disturbs throws exactly if a role fails, a policy or evidence check fails or the git lifecycle throws |
| `TaskRun.RunCycle` | packages/execution/src/orchestrator.ts:151-220 | the same for a cycle on a store with a fresh runner: a forced run loses no entry, and a step of the predecessor survives exactly if it was loaded or recorded by the run; answer and snapshot are those of the plan |
| `TaskRun.TaskRunner.Conduct` | packages/execution/src/task/task-runner.ts:151-216 | the verdict of review and tests leads to the failure handler or to the completion, and the snapshot is that of the path taken |
| `TaskPlan.UndisturbedRole` | packages/execution/src/roles/role-runner.ts:147-221 | with every access admitted a role succeeds exactly if its first execution is valid and reported or its second one is, and which steps it then records |
| `TaskPlan.UndisturbedSteps` | packages/execution/src/task/task-runner.ts:64-190 | the steps of an undisturbed run are those of prompt, executor, review and tests, the last only past the review |
| `TaskRun.TaskRunner.RequireLease` | packages/execution/src/leases/lease-protected-state-store.ts:20-35 | the check, and what others write before the access itself |
| `TaskRun.TaskRunner.Write` | packages/execution/src/leases/lease-protected-state-store.ts:44-63 | a checked write under the copy's revision, its place in the history, and that the copy stays in step with the store |
| `TaskRun.TaskRunner.PersistAndRequire` | packages/execution/src/persistence/policy-decision-recorder.ts:30-91 | the decision is recorded, pushed and read back; success means that the last decision the query finds has the policy version and the hash and allows the action |
| `TaskRun.TaskRunner.RecordStep` | packages/execution/src/persistence/run-step-recorder.ts:46-74 | a recorded step is buffered and its revision noted; one refused, by the lease check or by the store, changes nothing |
| `TaskRun.TaskRunner.FlushToState` | packages/execution/src/persistence/run-step-recorder.ts:76-87 | the buffered steps enter the copy; after a checked write the revision stays |
| `TaskRun.TaskRunner.Save` | packages/execution/src/task/task-runner.ts:259-260 | the save succeeds only against the revision the copy counts on, and what it may lack |
| `TaskRun.TaskRunner.Execute` | packages/execution/src/roles/role-runner.ts:147-221 | exactly which steps reach the store and whether the execution succeeds; a role whose output is invalid, or cannot be recorded, is executed a second time; the copy stays in step |
| `TaskRun.TaskRunner.Load` | packages/execution/src/orchestrator.ts:154-256 | the loaded state is that of the first access, the adopted one that of the access right after the selection; what a run that selects its task overlooks by adopting the revision without the contents |
| `TaskRun.TaskRunner.Work` | packages/execution/src/task/task-runner.ts:64-214 | the writes from the preflight decision to the verdict of the tester keep the copy in step |
| `TaskRun.TaskRunner.Finish` | packages/execution/src/task/task-runner.ts:216-278 | the completion path: task done and listed, no active task, both summaries, the entries of the git lifecycle and the postflight decision are in the saved snapshot |
| `TaskRun.TaskRunner.HandleFailure` | packages/execution/src/failure/failure-handler.ts:33-136 | the failure path: the failure, the retry count the store gave it and the status of the action are in the saved snapshot |
| `TaskRun.TaskRunner.RecordCostSummary` | packages/execution/src/task/task-runner.ts:296-318 | one more access, of which a failure is ignored; the cost summary is pushed in any case |
| `TaskRun.SelectedRunCanLoseArtifact` | packages/execution/src/orchestrator.ts:256 | a concrete loss when a foreign artifact arrives before the revision is adopted |
| `TaskRun.ForeignStepCanBeLost` | packages/state/src/in-memory/InMemoryStateStore.ts:195-198 | an instance of the above: a foreign run step moves no revision and is lost from the snapshot |
| `EvidenceChain.VerifyRunStepEvidenceChain` | packages/core/src/evidence/run-step-evidence.ts:58-91 | the list of issues, in order |
| `EvidenceChain.CleanIffLinked` | packages/core/src/evidence/run-step-evidence.ts:58-91 | no issue is found exactly when each step carries its own checksum and names that of the step before it |
| `EvidenceChain.ReportedIff` | packages/core/src/evidence/run-step-evidence.ts:58-91 | a wrong checksum and a broken link are each reported as what they are, and nothing else is |
| `EvidenceChain.ChainsAgree` | packages/core/src/evidence/run-step-evidence.ts:15-32 | two lists that verify and share their last checksum agree on all hashed fields along the shorter one's length, or else two of their steps at equal distance from the end collide |
| `EvidenceChain.RunStepRecorder.RecordStep` | packages/execution/src/persistence/run-step-recorder.ts:46-74 | the appended step under the resolved scope, the new chain end and the revision; a refused append changes nothing |
| `EvidenceChain.RunStepRecorder.StartRun` | packages/execution/src/persistence/run-step-recorder.ts:35-40 | the chain of the run starts anew, under the given scope, with an empty buffer and no revision |
| `EvidenceChain.RecorderChains` | packages/execution/src/evidence/append-run-step-evidence.ts:31-76 | whatever the store held at the start of a run, and whatever else is recorded in between, the steps recorded since form a chain, sorted if the clock does not go back |
| `EvidenceChain.EveryPageVerifies` | packages/core/src/evidence/run-step-evidence.ts:58-91 | every contiguous page of the steps recorded since the start of a run verifies, whatever the store held before |
| `EvidenceChain.PageVerifiesIffInOrder` | packages/core/src/evidence/run-step-evidence.ts:58-91 | a page of a chain without repeated checksums, listed in any order, verifies if and only if the stable sort of the listing gives the recorded order |
| `EvidenceChain.NewestFirstVerifiesIffStrict` | packages/state/src/postgres/PostgresStateStore.ts:201-245 | all newest-first listings of such a page, the order of equal instants being open, verify if and only if no two of its steps carry the same instant |
| `EvidenceChain.RestartsAreReported` | packages/execution/src/persistence/run-step-recorder.ts:35-74 | for every history of a recorder on an empty store under a clock that does not go back, verifying the whole listing of a run reports exactly those steps that come first after a start of the run but not first of all |
| `EvidenceChain.RestartIsReported` | packages/execution/src/persistence/run-step-recorder.ts:35-40 | the listing of a run that is started once has no issue if and only if no step was recorded under its id before the start or none after it; otherwise the first step after the start is the only issue |
| `EvidenceHash.ChecksumsAgree` | packages/core/src/evidence/run-step-evidence.ts:15-56 | two steps have the same checksum exactly when all hashed fields agree, unless SHA-256 maps two different canonical texts to one digest |
| `EvidenceHash.ChecksumIsNeverEmpty` | packages/core/src/evidence/run-step-evidence.ts:15-32 | what the chain asks of its checksum holds of the computed one |
| `CanonicalJson.CanonicalRoundTrip` | packages/core/src/idempotency/build-idempotency-key.ts:25-34 | parsing the canonical text gives back the value with its keys in order |
| `CanonicalJson.ValueRoundTrip` | packages/core/src/idempotency/build-idempotency-key.ts:25-34 | the text of a value is parsed back, whatever follows it |
| `CanonicalJson.StringRoundTrip` | packages/core/src/idempotency/build-idempotency-key.ts:26-28 | the escapes of a string are undone by the parser |
| `CanonicalJson.OnlyEscapedIfNeeded` | packages/core/src/idempotency/build-idempotency-key.ts:26-28 | only quotes, backslashes and control characters are escaped |
| `CanonicalJson.CanonicalTextsAgree` | packages/core/src/idempotency/build-idempotency-key.ts:25-34 | two values print equally if and only if they are equal up to the order of keys |
| `IdempotencyKey.KeyPart` | packages/core/src/idempotency/build-idempotency-key.ts:14-23 | exactly the values whose trimmed text is not empty and has no colon are accepted, and trimmed |
| `IdempotencyKey.KeyBuiltIff` | packages/core/src/idempotency/build-idempotency-key.ts:35-51 | a call gets a key if and only if its attempt is not negative and all six parts are usable; otherwise the first one that is not is named |
| `IdempotencyKey.TrimDropsSpace` | packages/core/src/idempotency/build-idempotency-key.ts:15 | trimming takes all white space off both ends and nothing else |
| `IdempotencyKey.KeysAgree` | packages/core/src/idempotency/build-idempotency-key.ts:36-51 | two keys are equal if and only if trimmed parts, attempt and effect type agree and the inputs are equal up to the order of keys, or their different canonical texts have one digest |
| `KeyedMutex.KeyedAsyncMutex.Arrive` | packages/execution/src/locks/keyed-async-mutex.ts:17-25 | the new call queues behind the tail of its key |
| `KeyedMutex.KeyedAsyncMutex.Resume` | packages/execution/src/locks/keyed-async-mutex.ts:27-30 | a body is entered exactly when the awaited tail has settled |
| `KeyedMutex.KeyedAsyncMutex.Finish` | packages/execution/src/locks/keyed-async-mutex.ts:31-36 | the gate opens, and the key is dropped if nobody queued since |
| `KeyedMutex.StepKeepsInv` | packages/execution/src/locks/keyed-async-mutex.ts:13-39 | what every slice of every schedule keeps |
| `KeyedMutex.FirstComeFirstServed` | packages/execution/src/locks/keyed-async-mutex.ts:13-39 | on one key bodies are entered in arrival order, at most one at a time |
| `KeyedMutex.MapHoldsBusyKeys` | packages/execution/src/locks/keyed-async-mutex.ts:33-35 | the map holds a key exactly while some call on it is unfinished |
| `KeyedMutex.WaitsForItsKeyOnly` | packages/execution/src/locks/keyed-async-mutex.ts:24-27 | a waiting call may be entered exactly when the earlier calls on its own key have returned or thrown |
| `KeyedMutex.NoKeyIsStuck` | packages/execution/src/locks/keyed-async-mutex.ts:13-39 | while a call waits, a body on its key runs or may be entered |
| `GitLifecycle.GitLifecycleCoordinator.Complete` | packages/execution/src/git/git-lifecycle-coordinator.ts:80-343 | each effect is tried at most once, directly after its persisted decision and a lease check; push only after a successful commit and past its gate, draft only after a successful push and past its own; on normal return no reserved entry is pending, the statuses and the result say what happened, and each reported status is the one registered for half an hour under the effect's key; the artifacts say the same, a waiting effect has an open request, and without a throw of a guard or an executor the call does not throw |
| `GitLifecycle.CompleteAgain` | packages/execution/src/git/git-lifecycle-coordinator.ts:80-343 | a second call for the same input within half an hour of a successful commit reports a duplicate and tries nothing; after a failed commit it tries again |
| `GitLifecycle.EffectsHaveOwnKeys` | packages/execution/src/git/git-lifecycle-coordinator.ts:96-105 | the effects of one call never share a key, whatever the digests |
| `GitLifecycle.GitLifecycleCoordinator.EvaluateApprovalGate` | packages/execution/src/git/git-lifecycle-coordinator.ts:416-466 | the status is that of the first open request or of the one created, which is pending and is appended exactly if none is open; asking changes no gate's answer |
| `GitLifecycle.GitLifecycleCoordinator.RiskGates` | packages/execution/src/git/git-lifecycle-coordinator.ts:138-158 | the risk gates only flag that the run waits |
| `GitLifecycle.GitLifecycleCoordinator.PushPhase` | packages/execution/src/git/git-lifecycle-coordinator.ts:159-220 | past its gate the push is tried unless it is a duplicate; otherwise the status says what the gate said |
| `GitLifecycle.GitLifecycleCoordinator.PullRequestPhase` | packages/execution/src/git/git-lifecycle-coordinator.ts:251-314 | the same for the draft pull request |
| `GitLifecycle.GitLifecycleCoordinator.Perform` | packages/execution/src/git/git-lifecycle-coordinator.ts:106-136 | reserve, decide, check the lease, act, finalize; a throw, of a guard or of the executor, leaves this reservation, and no other, pending; success and failure are registered as such, and the effect is suppressed exactly if its key is blocked |
| `GitLifecycle.KeysSeparateEffects` | packages/execution/src/git/git-lifecycle-coordinator.ts:96-105 | different effects never share a deduplication key, in whatever runs; one effect with different contents does so only if their digests collide |
| `GitLifecycle.NeverCompleted` | packages/execution/src/git/git-lifecycle-coordinator.ts:426-437 | a gate never reports a completed request |
| `Migrations.ValidatePostgresMigrations` | packages/state/src/postgres/PostgresMigrationRunner.ts:257-302 | accepts exactly the ascending, named, nonempty lists that end at the required version, and names what is wrong with the first migration that spoils a list |
| `Migrations.CompatibleIffPrefix` | packages/state/src/postgres/PostgresMigrationRunner.ts:191-232 | the compatibility conditions hold of an id-ordered history exactly when it is a prefix of the known list |
| `Migrations.PostgresMigrationRunner.AssertAppliedMigrationsAreCompatible` | packages/state/src/postgres/PostgresMigrationRunner.ts:191-232 | the check accepts exactly the prefixes, and names a problem the history has |
| `Migrations.PostgresMigrationRunner.ApplyMigration` | packages/state/src/postgres/PostgresMigrationRunner.ts:137-161 | one transaction: statements and record, or nothing |
| `Migrations.PostgresMigrationRunner.ApplyPendingMigrations` | packages/state/src/postgres/PostgresMigrationRunner.ts:71-99 | the state after a run with any number of transactions before it fails; a finished run ends at the full list, one with time to finish does finish, and the next run can read what it leaves |
| `Migrations.PostgresMigrationRunner.VerifySchemaCompatibility` | packages/state/src/postgres/PostgresMigrationRunner.ts:101-124 | accepts exactly a fully migrated schema |
| `Migrations.RunsKeepPrefix` | packages/state/src/postgres/PostgresMigrationRunner.ts:71-99 | after any sequence of runs, failures and crashes of any releases, the history is a prefix and its statements were executed exactly once |
| `Migrations.RunKeepsMigrated` | packages/state/src/postgres/PostgresMigrationRunner.ts:71-99 | a run never shortens the history and, given time, ends at its full list |
| `MutationPipeline.RepoMutationPipeline.Run` | packages/execution/src/repo-mutation-pipeline.ts:90-179 | the evidence is, per stage in order, retries then one success, and in a failing run ends with the failed stage, its failed entry and its compensation |
| `MutationPipeline.RepoMutationPipeline.RunStage` | packages/execution/src/repo-mutation-pipeline.ts:94-176 | the attempts of one stage are numbered consecutively and stop at the first success or final failure |
| `MutationPipeline.RepoMutationPipeline.Fail` | packages/execution/src/repo-mutation-pipeline.ts:150-175 | what follows a final failure, including a compensation that throws |
| `MutationPipeline.StopReason` | packages/execution/src/repo-mutation-pipeline.ts:130-200 | a stage stops at an execution that did not succeed and could not be repeated; what exactly its entries say of the failure and of the compensation |
| `MutationPipeline.RunFollowsStageOrder` | packages/execution/src/repo-mutation-pipeline.ts:78-91 | the evidence follows the fixed stage order however the stages are given |
| `MutationPipeline.PassedIffAllSucceeded` | packages/execution/src/repo-mutation-pipeline.ts:90-179 | if every stage allows an attempt, the runs that report success are exactly those in which every stage succeeded |
| `MutationPipeline.StoppedMeansNotAllSucceeded` | packages/execution/src/repo-mutation-pipeline.ts:150-175 | a stopped run has fewer successes than stages |
| `MutationPipeline.PassedMeansAllSucceeded` | packages/execution/src/repo-mutation-pipeline.ts:94-96 | a passed run has one success per stage if and only if every stage allows an attempt |
| `MutationPipeline.SilentlySkipped` | packages/execution/src/repo-mutation-pipeline.ts:96 | a stage without attempts is passed over and the run still reports success |
| `Dedup.InMemoryDedupRegistryPort.ReserveDedupEntry` | packages/state/src/idempotency/dedup-registry.ts:21-47 | a reservation is refused exactly while an unexpired entry is pending or succeeded |
| `Dedup.InMemoryDedupRegistryPort.FinalizeDedupEntry` | packages/state/src/idempotency/dedup-registry.ts:49-66 | the updated entry, whoever asks |
| `Dedup.InMemoryDedupRegistryPort.ReserveKey` | packages/state/src/idempotency/in-memory-dedup-registry-port.ts:18-23 | the reply of the port |
| `Dedup.InMemoryDedupRegistryPort.FinalizeKey` | packages/state/src/idempotency/in-memory-dedup-registry-port.ts:25-34 | the reply of the port; another owner is refused |
| `Dedup.ReserveGrantedIff` | packages/state/src/idempotency/dedup-registry.ts:21-47 | a reservation is granted if and only if there is no entry, or it has run out, or it is neither pending nor succeeded; a refusal shows the entry as what it is |
| `Dedup.FinalizeSays` | packages/state/src/idempotency/in-memory-dedup-registry-port.ts:25-34 | a report is accepted unless there is no entry or another owner holds it; it sets the status, keeps the expiry, and keeps references that are not given |
| `Dedup.AtMostOnce` | packages/state/src/idempotency/in-memory-dedup-registry-port.ts:18-34 | after a grant no other reservation of the key succeeds before it expires, unless the grantee reports failure |
| `Dedup.FailureFreesTheKey` | packages/state/src/idempotency/in-memory-dedup-registry-port.ts:25-34 | that exception is real: a failure report frees the key at once |
| `Dedup.FreedIffFailureReported` | packages/state/src/idempotency/in-memory-dedup-registry-port.ts:18-34 | while a reservation is not taken over, the next one of the key before it expires is granted exactly when the last report taken, one that names the holder or nobody, was a failure |
| `Dedup.ExclusionBrokenIff` | packages/state/src/idempotency/in-memory-dedup-registry-port.ts:18-34 | over any commands before the expiry, a second grant happens exactly when some reservation of the key follows such a failure report with no later report of success |
| `Dedup.OwnerlessFinalizeBreaksExclusion` | packages/state/src/idempotency/dedup-registry.ts:49-66 | an instance: a late finalize without an owner releases another holder's live reservation |

## Left out

What the models simplify:

- Instants are integers instead of ISO strings; `localeCompare` is a total order on strings, given as a parameter.
- SHA-256 is a function parameter with digests of 64 characters.
- Task fields that no modelled decision reads (kind, affected modules, estimated risk) are dropped, artifacts in the
  lifecycle model are reduced to the task they are about, and events, logs, metrics and milestones are omitted.
- The backlog record is keyed by task id; limits stay constant over a sequence of runs; the selected task is the one the
  state holds.
- The lifecycle theorems start from any state that satisfies the invariant: clean, acyclic, lists in agreement with the
  statuses, no task in a status the runtime never assigns, and the ids of possible parts free.
- Lifecycle.ValidateProjectState: does not model the format checks (discovery, architecture, policy decisions, schemas)
  and the milestone checks; the referential checks of the lifecycle state are all there.
- Lifecycle.RunState.SplitForFailure: does not model the decision record, which no modelled operation reads.
- Lifecycle.RunState.Replay: does not model the active run id, which no modelled operation reads.
- Lifecycle.ValidateBacklogTask: does not model the check that a task declares a kind, which no modelled operation
  reads.
- StateStore.InMemoryStateStore.CommitSnapshot: does not model the refusal of a snapshot by `assertProjectState`; a
  refused commit changes nothing, like a conflict.
- StateStore.InMemoryStateStore.RecordRunStep: does not model the refusals by the tenant guard and the
  status-transition guard, which change nothing.
- `created_at` is a TIMESTAMPTZ in the step log while the checksum covers its text: the listing results take the driver
  to hand back the instant as it was recorded.
- SQL text: advisory lock, revision check and insert are one step, and a migration is one transaction. `redactSecrets`
  is taken to be the identity.
- The unique-violation path of the snapshot insert, which the advisory lock rules out.
- In Redis the JSON text of a lease is identified with the lease, and the GET that words the refusal of an acquire is
  not modelled.
- Actions below one step of the event loop: promise microtask order, timers, abort signals.
- TaskRun: telemetry and events are dropped (an event can only make the run throw), a role execution is the steps it
  tries to record and the points at which it fails, and the graph part of a split is in `Lifecycle`. What to do about a
  failure is an answer of the plan; which one it is, is in `LifecycleFailures`.
- GitLifecycle: which changed paths count as risky is a list given by the environment; the contents of artifacts and
  the policy decision noted in a registry entry are not modelled.
- Lone surrogates in JSON strings, `undefined` inside arrays and objects, and number formatting: a number is known by
  the text it prints as, and an attempt prints as its decimal digits.
- Durations, notes and metadata of pipeline evidence; a timeout is one of the outcomes of an execution.

What is not modelled at all:

- PostgreSQL and etcd lock stores: they depend on row locks and client semantics outside this repository, and the etcd
  renewal is not a compare-and-set.
- Completion of milestones after a split: the superseded parent stays in the feature's list.
- Dashboard, CLI, authentication, prompts, language-model clients, file system, shell, search and patch adapters.
- Routing tables, autonomy levels, the kill switch, rollout, retry delays and access rules: each is one lookup or one
  comparison that keeps no state.
- The planner's own dependency chain and the severity helpers beside the merge preview.
