# AgentGuild core protocols: a Dafny model

AgentGuild's backend coordinates agents through shared database rows: leases, compare-and-set
updates and append-only ledgers. This project models its hardest parts and proves what they keep
over whole runs.

Conventions used throughout:

- A database transaction is one atomic step over a value of the tables. Rows it read before its commit
  are passed to it as they were read, at any earlier point of the run, separately from the tables it
  commits against; only the version guard, the agent's lock or the conditional update ties the two
  together. The lifecycle's `FOR UPDATE` locks on executions are not used: the model admits every run
  that they admit, and more. An error rolls the step back.
- Code that works by changing state is a class or a method with loops (`OutboxWorker`, `Task`,
  `Execution`, `Store`, `Tx`, `Service`, `LocalBucket`, `Repository`, `RunStore`, `VersionService`,
  `CriterionRecorder`, the projector's and scorer's loops). Each is proved equal to a function of the
  old state; the theorems are about those functions and about runs of them.
- Time is a whole number of nanoseconds read from a parameter of each step. Steps of different
  workers may carry any readings unless a lemma states a condition on the clock.
- Tenants are folded into the ids, except where a key joins a tenant with something else.

| file | component |
|---|---|
| `Common.dfy`, `Tables.dfy` | results and error codes; sums over tables, sorted listings, joined keys |
| `Backoff.dfy`, `Outbox.dfy`, `OutboxProtocol.dfy`, `OutboxOwnership.dfy` | outbox worker, its lease protocol, and when its fencing token fails |
| `Domain.dfy`, `Lifecycle.dfy`, `CoreStore.dfy` | tasks and executions: objects, transactions, store |
| `LifecycleInvariant.dfy`, `LifecycleRuns.dfy`, `LifecycleTheorems.dfy`, `Reaper.dfy`, `Stuck.dfy`, `Notifications.dfy` | the lifecycle invariant, runs on stale reads, what follows |
| `Idempotency.dfy`, `ExactlyOnce.dfy` | idempotency records; mutations applied exactly once |
| `Scoring.dfy`, `Harvest.dfy`, `HarvestTheorems.dfy` | scoring rule, evaluation runs, their harvest |
| `Versions.dfy`, `VersionsInvariant.dfy`, `VersionsRuns.dfy`, `VersionsEvidence.dfy` | version lifecycle with runs and current versions, and the evidence behind usable versions |
| `Ledger.dfy`, `Projector.dfy`, `ProjectorTheorems.dfy` | contribution event ledger and reputation projector |
| `RateLimit.dfy` | token bucket |
| `Filters.dfy`, `Paging.dfy` | the filter text of a cursor; keyset pagination of tasks |
| `CriterionGate.dfy`, `CriterionCoverage.dfy` | criterion ledger and reward gate |

## Findings

Places where the code does less than one would expect of it. Each has its exact condition, and a
concrete input or run at which it shows.

- The lease deadline is also the fencing token, and on a clock that goes back it can be written again. A
  step lets a superseded worker own its event if and only if it is an owner's failure, or a claim, that
  writes the deadline of another open claim on the event (`OutboxOwnership.StepForgesIff`); over any run
  none ever does if and only if no step is one of these (`OutboxOwnership.RunForgesIff`). Runs show both:
  a failure two seconds early (`OutboxProtocol.ClockConditionIsNeeded`), and a claim after an earlier
  failure had put the event far back (`OutboxOwnership.ClaimsHandOverToo`). On a clock that goes back by less
  than the retry delay neither happens (`OutboxOwnership.ClockedRunHandsNothingOver`).
- `cappedExponential` is the minimum of scaled base and cap except in two cases (`Backoff.CappedIsMin`);
  both callers avoid them.
- Cancelling a system task leaves its execution active (`LifecycleTheorems.SystemCancelOrphans`); this
  is the only way an active execution is not its task's own (`LifecycleTheorems.ActiveMeansAttached`).
- Past its deadline a claimed or started task is released by the reaper if and only if its execution is
  leased or running (`Stuck.OverdueReleasedIff`). With an execution whose validation failed, that was
  rejected, or of which a revision was requested, it stays in progress until its own publisher, or for
  a system task the system, cancels it before the deadline (`Stuck.StuckUntilCancelled`, an if and only
  if over runs); runs reach all three statuses (`Stuck.DeadEndsAreReached`).
- A heartbeat moves the hard expiry back exactly when its clock reading predates the lease it renews
  (`LifecycleTheorems.HeartbeatExpiryIff`), and there is a run in which one does
  (`LifecycleTheorems.EarlyHeartbeatShortens`).
- A resolved evaluation row still changes exactly when a different task id or publication error is
  written to it (`HarvestTheorems.ResolvedRowChangesIff`, `HarvestTheorems.ResolvedRowStaysIff` over
  histories), its outcome never; both writes can come after the harvest that timed the row out
  (`HarvestTheorems.LateWritesReachResolved`, `HarvestTheorems.LateWritesExample`).
- An outside completion of an evaluation run brings its own thresholds: it makes the version eligible
  without the rows meeting the gates if and only if all of those passed and the rows do not
  (`VersionsEvidence.OutsideCompletionIff`), and there is a run of the system that ends with an eligible
  version without a passed row (`VersionsEvidence.EligibleWithoutEvidence`). The rows of a passed run meet
  the gates if and only if it was completed by a harvest, or from outside after they already met them
  (`VersionsEvidence.PassedRunMeetsGatesIff`).
- Rate-limit keys join tenant and agent with a bar: two tenants share some bucket if and only if one id
  followed by a bar is a prefix of the other followed by a bar (`RateLimit.SharedBucketIff`,
  `RateLimit.SharedBucket`). Version groups join with NUL in the same way
  (`ProjectorTheorems.KeysCollideIff`), which no text column holds.
- A page cursor whose row has the zero time restarts the list (`Paging.CursorContinuesIff`).
- A cursor keeps a text of its filter that joins the sorted statuses with commas. Leaving aside NUL, which
  the query refuses, it is accepted with another filter if and only if type and publisher are the same and the statuses split at commas into
  the same pieces (`Filters.TextsAgreeIff`), which for statuses without commas means the same statuses
  equally often, or none against the empty one (`Filters.PlainTextsAgreeIff`). So a cursor for claimed and
  open tasks is accepted with the one status `claimed,open` (`Paging.CursorForAnotherFilter`), one for every
  status with the empty status (`Filters.NoStatusOrEmpty`), and one whose status is merely repeated is
  refused (`Filters.RepeatedStatus`).
- Delivering a recorded validation job again adds nothing as long as the criteria then answered judge no
  step that the first ones did not (`CriterionGate.RedeliveredJobAddsNothing`; exactly:
  `CriterionGate.JobAddsNothingIff`). A task projected between the deliveries makes the second one record
  its criteria (`CriterionGate.LateCriteriaAreRecorded`).

## Model

| member | source | states |
|---|---|---|
| Backoff.ComputeCappedExponential | backend/internal/worker/outbox.go:295-307 | the doubling loop on signed 64-bit durations computes the capped exponential and never overflows |
| Backoff.CappedIsMin | backend/internal/worker/outbox.go:295-307 | it equals min(base * 2^e, cap) if and only if neither of two exceptional cases holds |
| Backoff.CappedMonotone | backend/internal/worker/outbox.go:286-307 | for an even cap not below the base, as both callers have, it is that minimum and monotone in the exponent |
| Backoff.DurationsGrow | backend/internal/worker/outbox.go:286-293 | retry delays and claim durations grow with the attempts and stay between base and five minutes |
| Outbox.HandleEffect | backend/internal/worker/outbox.go:133-237 | whatever was observed, handling changes at most its own event's publication and one usage row, only under the current token, and never lowers coverage |
| Outbox.OutboxWorker.ClaimBatch | backend/internal/worker/outbox.go:76-131 | claims exactly the selected rows with a deadline of now plus the claim duration and returns them with that deadline as token |
| Outbox.OutboxWorker.MarkPublished | backend/internal/worker/outbox.go:240-248 | publishes only while the stored deadline equals the token, otherwise reports the lease lost |
| Outbox.OutboxWorker.MarkFailure | backend/internal/worker/outbox.go:250-272 | counts the attempt and reschedules by the retry delay, only while the stored deadline equals the token |
| Outbox.OutboxWorker.RecordUsage | backend/internal/worker/outbox.go:165-237 | the usage transaction: lease check, execution check, and an upsert that only a coverage as high replaces, keeping task and version |
| Outbox.OutboxWorker.HandleEvent | backend/internal/worker/outbox.go:133-237 | the handling of one event, whichever branch its type, payload and observation select |
| Outbox.OutboxWorker.ProcessEvent | backend/internal/worker/outbox.go:60-72 | one event of a batch, with whatever other workers commit before it is handled and before its failure is marked |
| Outbox.OwnedEventSettles | backend/internal/worker/outbox.go:60-72 | an owned, undisturbed event ends published or rescheduled with one more attempt, exactly as its outcome says |
| Outbox.OutboxWorker.RunBatch | backend/internal/worker/outbox.go:51-75 | the batch among other workers: a limit below one refused, then claim and events in order, up to the first lost lease |
| Outbox.BatchStopsAtLoss | backend/internal/worker/outbox.go:60-74 | a batch fails only by a lost lease, with the events before it counted and those after it not touched |
| Outbox.QuietBatch | backend/internal/worker/outbox.go:51-75 | undisturbed, a batch settles every claimed event, counts them all and touches no other row |
| OutboxProtocol.OwnerIsLatest | backend/internal/worker/outbox.go:240-272 | if an open claim's token is the stored deadline, it is the newest claim on its event |
| OutboxProtocol.ClaimOrdered | backend/internal/worker/outbox.go:76-131 | a new claim has a later time and a strictly later deadline than every older claim on the event |
| OutboxProtocol.StepKeepsFenced | backend/internal/worker/outbox.go:51-272 | every transaction of every worker, stalled or crashed, keeps the fencing invariant |
| OutboxProtocol.StepKeepsFencedIff | backend/internal/worker/outbox.go:250-272 | a step keeps the fencing invariant if and only if it is not an owner's failure read from a clock too far back |
| OutboxProtocol.RunIsFenced | backend/internal/worker/outbox.go:51-272 | the invariant holds in every state of every run on such a clock |
| OutboxProtocol.OnlyTheLatestClaimantWrites | backend/internal/worker/outbox.go:133-272 | deadlines of one event strictly increase over claims, and no transaction of an older claimant changes any table |
| OutboxProtocol.CurrentLeaseExcludes | backend/internal/worker/outbox.go:76-131 | while a lease is current its event cannot be claimed |
| OutboxProtocol.HandlePublishesObserved | backend/internal/worker/outbox.go:133-237 | an execution event is published only with its execution's complete observation stored, or its provider disabled |
| OutboxProtocol.StepKeepsObserved | backend/internal/worker/outbox.go:133-248 | that stays true of every published event after every step |
| OutboxProtocol.PublishedOnce | backend/internal/worker/outbox.go:174-272 | over any run a published row never changes, attempts never fall and stored coverage never degrades |
| OutboxProtocol.ClockConditionIsNeeded | backend/internal/worker/outbox.go:250-272 | a run with a clock going back two seconds in which a superseded worker publishes |
| OutboxOwnership.ForgesIffWrites | backend/internal/worker/outbox.go:133-272 | a superseded worker's publication and failure succeed if and only if it owns the event, and otherwise it changes nothing |
| OutboxOwnership.FailureForgesIff | backend/internal/worker/outbox.go:250-272 | an owner's failure hands its event to an older open claim if and only if it writes that claim's deadline |
| OutboxOwnership.ClaimForgesIff | backend/internal/worker/outbox.go:76-131 | so does a claim |
| OutboxOwnership.StepForgesIff | backend/internal/worker/outbox.go:51-272 | on any clocks, a step lets some superseded worker own its event if and only if it is such a failure or such a claim |
| OutboxOwnership.RunForgesIff | backend/internal/worker/outbox.go:51-272 | over any run no superseded worker ever owns its event if and only if no step is one of these |
| OutboxOwnership.ClockedRunHandsNothingOver | backend/internal/worker/outbox.go:51-272 | on a clock that does not go back by more than the retry delay no step is |
| OutboxOwnership.ClaimsHandOverToo | backend/internal/worker/outbox.go:76-131 | a run in which a claim after an early failure lets a superseded worker publish |
| Domain.Task.Apply | backend/internal/domain/task.go:97-169 | the task state machine with its actor and deadline checks; a refused intent changes nothing |
| Domain.Execution.ApplyStageProgress | backend/internal/domain/execution.go:119-130 | stage then progress; a bad progress value is refused after the stage is written |
| Domain.Execution.Start | backend/internal/domain/execution.go:91-103 | leased to running under the current generation before the hard expiry |
| Domain.Execution.Heartbeat | backend/internal/domain/execution.go:105-117 | renews the lease of a live execution under the current generation before the hard expiry |
| Domain.Execution.CancelBy | backend/internal/domain/execution.go:168-180 | cancels an active execution for a publisher or the system |
| Domain.Execution.SubmitAs | backend/internal/domain/execution.go:182-195 | submission of a running execution under a live lease |
| Domain.Execution.Apply | backend/internal/domain/execution.go:143-276 | every execution intent, with its source status, actor and result or error |
| Domain.TransitionsRaiseRank | backend/internal/domain/execution.go:91-276 | every status change raises a rank, so the machine has no cycle |
| CoreStore.Store.WriteTask | backend/internal/postgres/task_repository.go:111-136 | writes the task under its version and bumps it, or leaves the table alone |
| CoreStore.Store.WriteExecution | backend/internal/postgres/task_repository.go:320-344 | writes the execution under its version, stamping start, submission and expiry once |
| CoreStore.Store.WriteOwnedExecution | backend/internal/postgres/task_repository.go:346-373 | writes only under the version, owner, generation, live status and unexpired lease |
| CoreStore.Store.ClaimTask | backend/internal/application/claim.go:47-74 | the claim transaction: both rows or neither |
| CoreStore.Store.MutateExecution | backend/internal/application/claim.go:142-194 | start and heartbeat: execution and, for a start, task; both or neither |
| CoreStore.Store.CancelTask | backend/internal/application/task_commands.go:77-168 | the publisher's cancel with its loop over the listed executions |
| CoreStore.Store.CancelSystemTask | backend/internal/application/system_task.go:93-133 | the system's cancel of the task alone |
| CoreStore.Store.UpdateSystemTaskContent | backend/internal/application/system_task.go:135-168 | content of an open or draft task under its version; any other task is left alone |
| CoreStore.Store.Notify | backend/internal/application/service.go:125-155 | a notification applied under the version, or recognised as already applied |
| CoreStore.Store.RunReaperBatch | backend/internal/postgres/reaper.go:23-193 | both loops have the effect of the closed form, and the count is that of the tasks changed |
| CoreStore.Store.ReapCandidates | backend/internal/postgres/reaper.go:102-153 | the loop over due executions: each expired, its attached task reopened or expired |
| CoreStore.Store.ReapOpenCandidates | backend/internal/postgres/reaper.go:154-188 | the loop over unclaimed tasks past their deadline |
| CoreStore.ProcessedCountsTasks | backend/internal/postgres/reaper.go:101-192 | the processed count is exactly the number of tasks the batch changed |
| LifecycleInvariant.OpenMeansFree | backend/internal/postgres/task_repository.go:138-150 | an open task has no active execution, so a claim never meets the one-active index |
| LifecycleInvariant.ClaimSucceedsIff | backend/internal/application/claim.go:47-70 | a claim on current rows succeeds if and only if the task is open, undue and the id new |
| LifecycleInvariant.ClaimKeeps | backend/internal/application/claim.go:47-70 | a claim keeps the invariant and attaches the new leased execution |
| LifecycleInvariant.MutateKeeps | backend/internal/application/claim.go:142-194 | a start or heartbeat keeps it, and a start leaves the active execution in place |
| LifecycleInvariant.NotifyKeeps | backend/internal/application/service.go:125-155 | a notification keeps it |
| LifecycleInvariant.ReviewKeeps | backend/internal/review/application/service.go:589-637 | a review decision keeps it |
| LifecycleInvariant.CancelAllEffect | backend/internal/application/task_commands.go:123-138 | the cancel loop meets no state conflict and cancels exactly the listed executions |
| LifecycleInvariant.CancelEffect | backend/internal/application/task_commands.go:107-149 | a publisher's cancel succeeds exactly when publisher, deadline and status allow, and then cancels the task and its active executions and nothing else |
| LifecycleInvariant.CancelKeeps | backend/internal/application/task_commands.go:100-155 | it keeps the invariant |
| LifecycleInvariant.SystemCancelKeeps | backend/internal/application/system_task.go:93-133 | so does the system's cancel |
| LifecycleInvariant.ReapKeeps | backend/internal/postgres/reaper.go:23-193 | so does a reaper batch, in any candidate order |
| LifecycleRuns.CancelReadsFresh | backend/internal/application/task_commands.go:100-155 | a cancel that commits listed exactly the executions active at its commit, by the version guards alone |
| LifecycleRuns.CommitIsSerial | backend/internal/postgres/task_repository.go:111-150 | a transaction that commits on stale reads changes nothing or acts as on fresh ones |
| LifecycleRuns.FreshKeeps | backend/internal/application/claim.go:111-194 | every transaction on fresh reads keeps the invariant and lets rows only grow |
| LifecycleRuns.RunKeeps | backend/internal/postgres/task_repository.go:111-373 | in every state of every run on stale reads the invariant holds, and between any two states rows have only grown |
| LifecycleRuns.EveryCommitIsSerial | backend/internal/postgres/task_repository.go:111-373 | each commit of a run did exactly what it would have done reading the tables as they then were |
| LifecycleTheorems.ActiveMeansAttached | backend/internal/application/system_task.go:93-133 | an active execution is its task's own if and only if the system has not cancelled the task, and it is the only one |
| LifecycleTheorems.TaskMatchesExecution | backend/internal/application/claim.go:47-194 | open tasks have no active execution, claimed ones a leased one, those in progress one past leased |
| LifecycleTheorems.StartNeverRedirects | backend/internal/application/claim.go:150-186 | a committed start moves its task from claimed to in progress and keeps the active execution |
| LifecycleTheorems.OneHeartbeatPerGeneration | backend/internal/postgres/task_repository.go:346-373 | each lease generation authorises at most one heartbeat over any run |
| LifecycleTheorems.TerminalIsForever | backend/internal/domain/execution.go:91-276 | a terminal execution never changes again |
| LifecycleTheorems.CancelIsFinal | backend/internal/application/task_commands.go:77-168 | after a publisher's cancel no execution of the task is ever active again |
| LifecycleTheorems.HeartbeatExpiryIff | backend/internal/domain/execution.go:105-117 | a heartbeat moves the hard expiry back if and only if its clock reading predates the lease |
| LifecycleTheorems.EarlyHeartbeatShortens | backend/internal/domain/execution.go:105-117 | a run in which a committed heartbeat leaves an earlier hard expiry |
| LifecycleTheorems.ExpiryNeverMovesBack | backend/internal/domain/execution.go:48-55 | with a non-decreasing clock over lease grants, the hard expiry never moves back over any run |
| LifecycleTheorems.SystemCancelOrphans | backend/internal/application/system_task.go:93-133 | a run after which a cancelled task's execution still heartbeats |
| Stuck.OverdueReleasedIff | backend/internal/postgres/reaper.go:41-153 | past its deadline a claimed or started task is selected and released if and only if its execution is leased or running |
| Stuck.StuckChangesIff | backend/internal/application/task_commands.go:107-149 | a transaction changes a task stuck on a dead-end execution if and only if it is a timely cancel by its own publisher, or by the system of its own task |
| Stuck.StuckUntilCancelled | backend/internal/application/system_task.go:93-133 | over any run on stale reads it stays exactly as it is if and only if no such cancel was accepted |
| Stuck.DeadEndsAreReached | backend/internal/review/application/service.go:589-637 | runs that end in a failed validation, a rejection and a requested revision, after which no overdue batch releases the task |
| Reaper.ReapEffect | backend/internal/postgres/reaper.go:23-193 | the two loops leave exactly the closed form, whatever the candidate order |
| Reaper.WorkExcludesReaping | backend/internal/postgres/reaper.go:41-50 | no instant admits both a heartbeat or start and a reap of one execution |
| Reaper.ExpiryIsDue | backend/internal/postgres/reaper.go:41-50 | only the reaper expires an execution, past its hard lease or its task's deadline |
| Reaper.TaskReleaseIsDue | backend/internal/postgres/reaper.go:102-188 | a task expires only at its deadline and reopens only before it, together with exactly its own expired execution |
| Reaper.BatchRemovesSelected | backend/internal/postgres/reaper.go:38-193 | a batch removes from the due sets exactly what it selected |
| Reaper.BatchesDrain | backend/internal/postgres/reaper.go:38-193 | repeated unhindered batches drain the due rows at the full rate until none is left |
| Notifications.MovesIsTable | backend/internal/domain/execution.go:91-276 | the moves of the execution state machine are exactly this table |
| Notifications.AlreadyAppliedIff | backend/internal/application/service.go:157-176 | the already-applied table is exactly the non-cancelled statuses reachable from the intent's target |
| Notifications.StatusMoves | backend/internal/application/service.go:125-155 | every transaction moves an execution along that machine, if at all |
| Notifications.ShowsForever | backend/internal/application/service.go:125-176 | a delivered intent shows, or the execution is cancelled, ever after |
| Notifications.RedeliveryIsHarmless | backend/internal/application/service.go:125-176 | redelivering a succeeded command anywhere later, on however stale a read, changes nothing |
| Notifications.RedeliveryCanBeSpliced | backend/internal/application/service.go:125-176 | the run with the redelivery spliced in is a run with the same final tables |
| Idempotency.Tx.AcquireIdempotency | backend/internal/postgres/idempotency.go:28-119 | acquisition with its insert, expiry takeover, mismatch, replay, re-entry and stale takeover |
| Idempotency.Tx.RenewIdempotency | backend/internal/postgres/idempotency.go:128-154 | renewal only by the pending owner |
| Idempotency.Tx.CompleteIdempotency | backend/internal/postgres/idempotency.go:163-193 | completion only by the pending owner, releasing the key |
| Idempotency.Tx.Finish | backend/internal/postgres/store.go:32-50 | a commit with an acquired key left pending is refused and rolled back |
| Idempotency.OwnersAreIssued | backend/internal/postgres/idempotency.go:28-60 | over any run every owner token was drawn before and no record disappears |
| Idempotency.DisplacedOnlyWhenDue | backend/internal/postgres/idempotency.go:76-118 | an owner is displaced if and only if a fresh acquisition finds the retention over or the pending lease stale |
| Idempotency.DisplacedIsFenced | backend/internal/postgres/idempotency.go:128-193 | a displaced token never renews or completes again |
| Idempotency.CompletedIsFrozen | backend/internal/postgres/idempotency.go:28-119 | until expiry a completed response is immutable, replayed to the same request and refused to another |
| Idempotency.FreshOwnerIsSafe | backend/internal/postgres/idempotency.go:100-118 | an owner within its pending lease is not displaced, and others are told it is in progress |
| ExactlyOnce.Service.Mutate | backend/internal/application/claim.go:24-81 | acquisition, body and completion in one transaction that commits both tables or neither |
| ExactlyOnce.CommitsTogether | backend/internal/postgres/store.go:32-50 | a mutation commits only together with its completed record; any refusal leaves both tables alone |
| ExactlyOnce.AnswerIsFrozen | backend/internal/postgres/idempotency.go:76-118 | within retention the stored answer outlives every interleaved acquisition, renewal, completion and application change |
| ExactlyOnce.RetriesReplay | backend/internal/application/claim.go:38-46 | after a success every later request with the key applies nothing and gets the same reply, or is refused if it differs |
| ExactlyOnce.NothingPending | backend/internal/application/task_commands.go:169-192 | keys used by whole mutations alone never leave a pending record, and answers are kept for the full retention |
| ExactlyOnce.ClaimAddsItsReply | backend/internal/application/claim.go:47-81 | a claim body adds exactly the execution its reply names, whatever it read and commits against |
| ExactlyOnce.OneExecutionPerKey | backend/internal/application/claim.go:24-81 | any interleaving of retried and concurrent claims under one key within retention creates at most one execution, the one every success names |
| ExactlyOnce.RepliesAgree | backend/internal/application/claim.go:24-81 | all successful claims under a key reply alike |
| Scoring.ApplyScoringRule | backend/internal/evaluation/domain/scoring.go:36-125 | the accumulating loop computes the three gates and the summary; an unknown rule gives no gate |
| Scoring.IsAllPassed | backend/internal/evaluation/domain/evaluation_run.go:159-166 | whether every threshold passed |
| Scoring.VerdictIff | backend/internal/evaluation/domain/scoring.go:27-110 | the gates all pass if and only if there is a task, four in five pass, every security task passes and the mean latency is at most a second |
| Scoring.ScoreIgnoresOrder | backend/internal/evaluation/domain/scoring.go:48-61 | the score does not depend on the order of the results |
| Scoring.VerdictIsMonotone | backend/internal/evaluation/domain/scoring.go:48-110 | passing more tasks at the same latencies never turns a pass into a failure |
| Harvest.RunStore.ListUnresolved | backend/internal/evaluation/postgres/run_task_repository.go:85-99 | exactly the unresolved rows, each once |
| Harvest.RunStore.Resolve | backend/internal/evaluation/postgres/run_task_repository.go:106-134 | resolves an unresolved row; a resolved one conflicts |
| Harvest.RunStore.ResolveObserved | backend/internal/evaluation/worker/evaluation_worker.go:132-148 | the harvesting loop resolves exactly the rows whose outcome is final, or fails on an observation error |
| Harvest.RunStore.ResolveTimedOut | backend/internal/evaluation/worker/evaluation_worker.go:150-171 | past the timeout every outstanding row is failed |
| Harvest.RunStore.Complete | backend/internal/evaluation/domain/evaluation_run.go:135-151 | a running run is completed once, as passed when every threshold passed |
| Harvest.RunStore.CompleteRun | backend/internal/evaluation/worker/evaluation_worker.go:298-360 | scores the rows and records the verdict and one result each |
| Harvest.RunStore.HarvestRun | backend/internal/evaluation/worker/evaluation_worker.go:119-182 | one harvest transaction, rolled back on error |
| HarvestTheorems.PassedIff | backend/internal/evaluation/worker/evaluation_worker.go:187-262 | a row is resolved as passed if and only if a validated submission by the evaluated version is seen on a live task, with the latency and cost observed |
| HarvestTheorems.PendingIff | backend/internal/evaluation/worker/evaluation_worker.go:200-293 | a row waits exactly while its task id is unknown, its task missing or its observed state open |
| HarvestTheorems.CompletesIff | backend/internal/evaluation/worker/evaluation_worker.go:150-182 | an error-free harvest completes the run if and only if it timed out or every row is decided |
| HarvestTheorems.TimeoutCompletes | backend/internal/evaluation/worker/evaluation_worker.go:154-182 | at or after the timeout a harvest completes the run exactly when no observation fails |
| HarvestTheorems.CompletionIsWhole | backend/internal/evaluation/worker/evaluation_worker.go:298-360 | a completed harvest has every row resolved, one result row for each in plan order, and the verdict of the gates |
| HarvestTheorems.ResolvedIsFinal | backend/internal/evaluation/postgres/run_task_repository.go:106-134 | over any history the outcome of a resolved row never changes |
| HarvestTheorems.CompletedOnce | backend/internal/evaluation/postgres/repository.go:337-384 | over any history a run is completed at most once |
| HarvestTheorems.PassedRowHasEvidence | backend/internal/evaluation/worker/evaluation_worker.go:187-262 | every passed row was passed by one harvest that saw the evidence for it |
| HarvestTheorems.HarvestedPassIsSound | backend/internal/evaluation/worker/evaluation_worker.go:119-368 | a harvested pass meets the gates over at least one task, each passed row on evidence seen |
| HarvestTheorems.ResolvedRowChangesIff | backend/internal/evaluation/postgres/run_task_repository.go:159-195 | a step changes a resolved row if and only if it writes it another task id or publication error, and never its outcome |
| HarvestTheorems.ResolvedRowStaysIff | backend/internal/evaluation/postgres/run_task_repository.go:106-195 | over any history a resolved row stays as it is if and only if no step is such a write |
| HarvestTheorems.LateWritesReachResolved | backend/internal/evaluation/postgres/run_task_repository.go:159-195 | a history in which a late task id or error changes a row that the timeout resolved |
| Versions.AgentVersion.Promote | backend/internal/agentversion/domain/agent_version.go:186-194 | eligible to active with the approver recorded, anything else conflicts |
| Versions.AgentVersion.Retire | backend/internal/agentversion/domain/agent_version.go:197-204 | active to retired, anything else conflicts |
| Versions.VersionService.Promote | backend/internal/agentversion/application/commands.go:208-266 | the promotion transaction: retire, promote, compare-and-set the current version |
| Versions.VersionService.Rollback | backend/internal/agentversion/application/commands.go:270-295 | the current version switched to one that may be rolled back to |
| Versions.VersionService.PlanRows | backend/internal/evaluation/application/commands.go:177-189 | one plan row for each benchmark task, refused when a reference repeats |
| Versions.VersionService.StartEvaluationRun | backend/internal/evaluation/application/commands.go:114-236 | a run for a draft, left running on the platform or completed at once |
| Versions.VersionService.FinishSynchronously | backend/internal/evaluation/application/commands.go:192-226 | synchronous results scored, recorded and passed on to the version in the same transaction |
| VersionsInvariant.StartRunKeeps | backend/internal/evaluation/application/commands.go:130-226 | starting a run keeps the joint invariant, whatever state the version was read in |
| VersionsInvariant.HarvestKeeps | backend/internal/evaluation/worker/evaluation_worker.go:119-368 | so does a harvest, with the version moved with its run |
| VersionsInvariant.CompleteRunKeeps | backend/internal/evaluation/application/commands.go:285-321 | so does an outside completion |
| VersionsInvariant.PromoteKeeps | backend/internal/agentversion/application/commands.go:224-266 | a promotion keeps it, retires the previous active version and makes the target the only active and the current one |
| VersionsInvariant.RollbackKeeps | backend/internal/agentversion/application/commands.go:270-295 | a rollback keeps it |
| VersionsRuns.LockProtects | backend/internal/agentversion/postgres/repository.go:282-294 | while no promotion or rollback of an agent commits, its usable versions and its active version stay as they are |
| VersionsRuns.ReadsAreGood | backend/internal/agentversion/application/commands.go:224-262 | what a promotion or rollback read under the lock, though outside its transaction, still holds at its commit |
| VersionsRuns.EveryStateIsInv | backend/internal/agentversion/postgres/version_lifecycle_adapter.go:67-106 | the joint invariant holds in every state of every run |
| VersionsRuns.ReachableIsSafe | backend/internal/evaluation/application/commands.go:130-226 | one run per version; running means evaluating; eligible, active and retired drafts passed, rejected ones failed; one active version per agent, and a usable current one |
| VersionsRuns.PromotionIsSerial | backend/internal/agentversion/postgres/repository.go:332-351 | a committed promotion acted on the tables as they were, its target eligible and passed, the current version the expected one |
| VersionsRuns.VerdictIsFinal | backend/internal/evaluation/postgres/repository.go:346-384 | a completed run keeps its verdict and results in every later state |
| VersionsRuns.TimeoutAlwaysCompletes | backend/internal/evaluation/worker/evaluation_worker.go:119-182 | in every reachable state a timed-out, observable running run is completed together with its version, without a conflict |
| VersionsEvidence.PassedRowWasSeen | backend/internal/evaluation/worker/evaluation_worker.go:187-262 | over any run of the system, every passed row of any evaluation run was passed by one harvest that saw its evidence |
| VersionsEvidence.PassedRunMeetsGatesIff | backend/internal/evaluation/application/commands.go:192-321 | the planned rows of a passed run meet the gates if and only if a harvest completed it, or an outside completion found them met; one without planned rows passed on recorded answers that meet them |
| VersionsEvidence.PassedRunMeetsGates | backend/internal/evaluation/worker/evaluation_worker.go:298-345 | a platform run that passed meets the gates on its recorded rows, ever after |
| VersionsEvidence.SynchronousRunMeetsGates | backend/internal/evaluation/application/commands.go:192-226 | a run that another executor answered keeps those answers as its results and passed if and only if they meet the gates |
| VersionsEvidence.UsableOnEvidenceIff | backend/internal/agentversion/application/commands.go:232-246 | an eligible, active or retired draft has a passed run, every passed row of it on a validated submission of this version that a harvest saw, and which meets the gates under exactly that condition |
| VersionsEvidence.UsableOnEvidence | backend/internal/agentversion/application/commands.go:232-246 | an eligible, active or retired draft that the platform alone evaluated has a run meeting the gates |
| VersionsEvidence.OutsideCompletionIff | backend/internal/evaluation/application/commands.go:285-321 | an outside completion succeeds exactly for the version and its agent with some threshold, leaves the rows alone, and makes the version eligible exactly when all thresholds it brought passed |
| VersionsEvidence.EligibleWithoutEvidence | backend/internal/evaluation/application/commands.go:285-321 | a run of the system that ends with an eligible version, no row of whose run has passed |
| Ledger.Repository.FindIdempotentEvent | backend/internal/contribution/postgres/repository.go:138-194 | which stored event a conflicting append stands for, or a conflict |
| Ledger.Repository.Append | backend/internal/contribution/postgres/repository.go:84-117 | inserts a new event or answers with the stored one |
| Ledger.AppendKeepsUnique | backend/internal/contribution/postgres/repository.go:84-117 | both keys stay unique and no row is changed or removed |
| Ledger.RedeliveryIff | backend/internal/contribution/postgres/repository.go:138-194 | an append answers with a stored row if and only if it shares a key and its content and neither key leads elsewhere |
| Ledger.ChangesIffNotAbsorbed | backend/internal/contribution/postgres/repository.go:84-117 | an append changes the ledger exactly when neither key is taken and the contribution is known |
| Ledger.RedeliveryIsNoOp | backend/internal/contribution/postgres/repository.go:84-194 | after any log, delivering again any of its events in any order leaves the ledger as it is |
| Projector.ReadEvents | backend/internal/contribution/application/projector.go:97-108 | the event loop finds the outcomes seen, independent feedback and the greatest id |
| Projector.ApplyFacts | backend/internal/contribution/application/projector.go:87-157 | a fact adds its digest to the accumulator |
| Projector.CountDuplicates | backend/internal/contribution/application/projector.go:160-164 | the attempts beyond the first on each task, in any map order |
| Projector.LargestCount | backend/internal/contribution/application/projector.go:167-172 | the greatest repository count, in any map order |
| Projector.Finalize | backend/internal/contribution/application/projector.go:159-190 | the finished projection with its rates, hint and signals |
| Projector.FinalizeAccumulators | backend/internal/contribution/application/projector.go:192-203 | every group once, in increasing order of its key |
| Projector.Project | backend/internal/contribution/application/projector.go:29-62 | both levels of projections, or a refusal exactly for a missing time or an unnamed verified fact |
| ProjectorTheorems.NumbersCountContributions | backend/internal/contribution/application/projector.go:87-157 | a group exists exactly when a verified contribution belongs to it, and each of its numbers counts the contributions with that property |
| ProjectorTheorems.ApplyCommutes | backend/internal/contribution/application/projector.go:87-157 | two facts may be applied in either order |
| ProjectorTheorems.GroupsIgnoreOrder | backend/internal/contribution/application/projector.go:29-56 | the order in which facts are read does not matter |
| ProjectorTheorems.ProjectionIgnoresOrderAndRepetition | backend/internal/contribution/application/projector.go:29-157 | the output depends only on each contribution and the set of its events |
| ProjectorTheorems.RedeliveryLeavesProjections | backend/internal/contribution/postgres/repository.go:84-194 | redelivering logged events, and reading the tables in any order, rebuilds the same projections |
| ProjectorTheorems.VersionsAddUp | backend/internal/contribution/application/projector.go:42-56 | every number of an agent is the total of that number over its versions |
| ProjectorTheorems.ProjectionBounds | backend/internal/contribution/application/projector.go:159-190 | repository counts add up to attempts, duplicates are attempts beyond one per task, rates and share lie in [0, 1] |
| ProjectorTheorems.TasksAreDistinctTasks | backend/internal/contribution/application/projector.go:87-92 | the tasks counted are exactly those of the group's contributions |
| ProjectorTheorems.KeysCollideIff | backend/internal/contribution/application/projector.go:47-47 | two agents have versions under one group key if and only if one id followed by NUL is a prefix of the other followed by NUL |
| RateLimit.LocalBucket.Allow | backend/internal/ratelimit/limiter.go:72-104 | the refill, the decision and the stored bucket of one key; every other bucket is untouched |
| RateLimit.NewLocalTokenBucket | backend/internal/ratelimit/limiter.go:48-60 | a limiter exactly for a positive interval and burst |
| RateLimit.AllowedIff | backend/internal/ratelimit/limiter.go:72-104 | a call is allowed if and only if, since every earlier call, one more stays within the burst and what accrued |
| RateLimit.WindowBound | backend/internal/ratelimit/limiter.go:72-104 | no window allows more than the burst plus what accrues in it |
| RateLimit.BurstIsAllowed | backend/internal/ratelimit/limiter.go:79-82 | the first burst of calls is never refused |
| RateLimit.WaitingIsEnough | backend/internal/ratelimit/limiter.go:97-103 | however the tokens were rounded, waiting the returned time and a nanosecond more is admitted |
| RateLimit.RetryAfterIsExact | backend/internal/ratelimit/limiter.go:97-103 | with exact arithmetic a lone call is admitted if and only if it waits the returned time |
| RateLimit.SharedBucketIff | backend/internal/ratelimit/limiter.go:106-108 | two tenants have agents that share a bucket if and only if one id followed by a bar is a prefix of the other followed by a bar |
| RateLimit.SeparateBuckets | backend/internal/ratelimit/limiter.go:106-108 | so tenants without a bar in their ids share a bucket only for the same tenant and agent |
| RateLimit.SharedBucket | backend/internal/ratelimit/limiter.go:106-108 | and every tenant shares one with any tenant whose id continues its own after a bar |
| Paging.ListTasks | backend/internal/application/task_queries.go:76-139 | reading one row to spare, a page is the next rows of the sorted filtered list, with a cursor exactly when more follow; bad limits and cursors are refused |
| Paging.ListingIs | backend/internal/postgres/task_repository.go:63-109 | the query returns exactly the selected rows, newest first, each once |
| Paging.ContinuesAfter | backend/internal/postgres/task_repository.go:84-90 | the list after a row's key is what follows the row |
| Paging.CursorContinuesIff | backend/internal/postgres/task_repository.go:84-90 | a cursor continues the list if and only if its time is not zero; otherwise it restarts it |
| Paging.NewerDoNotShow | backend/internal/postgres/task_repository.go:84-90 | rows newer than a key do not show after it |
| Filters.TextsAgreeIff | backend/internal/application/task_queries.go:172-181 | two filters have the same text if and only if type and publisher agree and the sorted statuses have the same pieces between commas |
| Filters.PlainTextsAgreeIff | backend/internal/application/task_queries.go:172-181 | without commas: if and only if they name the same statuses equally often, or none and the empty one |
| Filters.KnownTextsAgreeIff | backend/internal/application/task_queries.go:172-181 | for statuses that tasks have: if and only if they name the same ones equally often, and then they select the same rows |
| Filters.MergedStatuses | backend/internal/application/task_queries.go:172-181 | two statuses and their joined text agree, but select different rows |
| Filters.NoStatusOrEmpty | backend/internal/application/task_queries.go:172-181 | so do no status and the empty one |
| Filters.RepeatedStatus | backend/internal/application/task_queries.go:172-181 | a repeated status selects the same rows under another text |
| Paging.IssuedIsAcceptedIff | backend/internal/application/task_queries.go:105-208 | an issued cursor is accepted if and only if the tenant is its own, the filter has its text and it has not expired, and then names the last row shown |
| Paging.CursorForAnotherFilter | backend/internal/application/task_queries.go:105-208 | a cursor for two statuses, accepted with their joined text, ends a list that has a row left |
| Paging.FollowShowsTheList | backend/internal/application/task_queries.go:92-136 | passing each page's cursor to the next call in time, under any limits and while newer rows arrive, no page is refused and the pages are a prefix of the list of the first call, the whole of it exactly when no cursor is left |
| Paging.EveryRowIsShown | backend/internal/application/task_queries.go:92-136 | with at least as many calls as rows, the whole list is shown, none lost or repeated |
| CriterionGate.CriterionRecorder.RecordOne | backend/internal/contribution/postgres/criterion_repository.go:28-73 | refuses untrimmed or empty fields and malformed hashes, inserts a new source's result, accepts an equal one, refuses a contradicting one |
| CriterionGate.CriterionRecorder.RecordCommands | backend/internal/contribution/application/criterion_recorder.go:79-91 | records in order up to the first error and keeps what was recorded |
| CriterionGate.CriterionRecorder.RecordValidationOutcome | backend/internal/contribution/application/validation_recorder.go:61-101 | records the criteria bound to a step that ran |
| CriterionGate.RecordKeepsValid | backend/internal/contribution/postgres/criterion_repository.go:28-73 | one result per source and criterion, increasing ids, append only |
| CriterionGate.JobAddsNothingIff | backend/internal/contribution/application/validation_recorder.go:59-101 | a job adds nothing if and only if every command up to its first error is invalid, recorded or without its execution |
| CriterionGate.RedeliveredJobAddsNothing | backend/internal/contribution/application/validation_recorder.go:59-101 | delivering a recorded job again, at any later time, adds nothing if the criteria answered then judge no step that the first ones did not |
| CriterionGate.LateCriteriaAreRecorded | backend/internal/contribution/application/validation_recorder.go:68-101 | criteria answered only at the redelivery are recorded by it |
| CriterionGate.RepeatedBatchAddsNothing | backend/internal/contribution/application/criterion_recorder.go:77-91 | repeating a batch at once adds nothing and stops at the same error |
| CriterionGate.OnlyRunStepsContribute | backend/internal/contribution/application/validation_recorder.go:76-99 | an outcome only appends, and every row it appends reports a step that ran |
| CriterionCoverage.SummarizeCriteria | backend/internal/contribution/domain/criterion.go:130-166 | the two loops compute the coverage |
| CriterionCoverage.CoverageCounts | backend/internal/contribution/domain/criterion.go:130-166 | every number and list of a coverage counts criteria of the specification |
| CriterionCoverage.RequiredAddsUp | backend/internal/contribution/domain/criterion.go:130-166 | required is passed plus failed plus unverified |
| CriterionCoverage.GateIff | backend/internal/contribution/domain/criterion.go:177-185 | the gate opens if and only if there is a critical criterion and every one has passed |
| CriterionCoverage.RewardGate | backend/internal/contribution/domain/criterion.go:130-185 | over any recorded history it opens if and only if the latest fact about every critical criterion is a pass |
| CriterionCoverage.FailureClosesGate | backend/internal/contribution/domain/criterion.go:177-185 | a newer failed observation of a critical criterion closes it |

## Left out

- SQL text, drivers, JSON, signatures and hashes: guards, row counts and atomic commits are kept; random tokens and new ids are values not used before, and equal hashes mean equal requests or filter texts.
- Audit, task-event and outbox rows appended by the lifecycle transactions: they guard nothing.
- Task content fields other than those compared: folded into one string; `claimed_at`, `last_heartbeat_at` and `updated_at` are not kept.
- `IntentCancel` through `Notify`, and the public claim path, which writes the same two rows as the claim modelled here.
- The review service beyond its decision transaction, the reward ledger, and the identity module beyond an agent's first registration.
- `VersionService.StartEvaluation`: it reads outside its transaction and writes the status unguarded, so the joint invariant is not claimed for runs that use it.
- Draft content, fingerprints, version numbers, the deactivation of benchmark sets, and the retirement and promotion time stamps.
- Benchmark sets: a run carries the frozen plan order and security flags of its tasks; the environment digest is not checked.
- The observer's query over tasks, executions and submissions: a harvest is given any snapshot of each platform task.
- Floating point: scores, rates and tokens are reals, so rounding is not modelled; `RateLimit.WaitingIsEnough` holds for any token value.
- The accumulators that the projector's maps point to are values stored in the maps, not shared objects.
- Ties between equal creation times in the observer, and text collation: ids compare by code point.
- A criterion result recorded without a time gets the recorder's clock; here every result carries its time.
- Waiting on row locks: transactions on one idempotency key serialise on its row, so each is one step.
- Configuration, authorisation, OAuth, GitHub drivers, URL checks, telemetry clients, the runner and the frontend.
- ExactlyOnce.NothingPending: does not cover keys that the short acquire and complete transactions also use, because those commit pending records by design.
- Harvest.RunStore.HarvestRun: does not model reading the benchmark set inside the transaction, because the set is immutable.
