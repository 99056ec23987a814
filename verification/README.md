# Verified models of the framework's stateful protocols

Dafny models of five parts of the framework, each with the properties that its users rely on:

- nested transactions over savepoints, in PostgreSQL and in memory, and the onion of aspects that opens
  and closes them around commands (`Postgres`, `PgTransaction`, `MemoryTransaction`, `AspectChain`,
  `PgAspectChain`);
- event sourcing with optimistic concurrency: both event stores, the aggregate root, the snapshotting
  repository, any number of interleaved clients, and the order aggregate (`MemoryEventStore`,
  `PgEventStore`, `Aggregates`, `SnapshotRepository`, `ClientRuns`, `Orders`);
- the asynchronous job manager as interleaved goroutines around one live job (`JobCore`, `JobManager`,
  `CancelRaces`);
- the bounded trace log with its inverted index (`TraceStore`);
- the PostgreSQL trace listing with its LIKE pattern, against the in-memory listing (`TraceLike`,
  `PgTraceStore`).

Each object that the program updates in place is a class here, and each of its methods is proved equal to a
function of the old state. Runs are sequences of those functions, and the properties of runs are lemmas
about all of them. `dafny verify dfyconfig.toml` checks everything.

## How the parts are stated

**Transactions.** A run is a list of calls, each with the error that the caller saw. `Scopes`, `Alive` and
`Kept` say on the calls alone which scopes are open and which writes should survive; they do not mention
`depth`, `nextSpSeq`, `parentSp` or `aborted`. `NextNest` is the recursive meaning of nested scopes, a stack
of data. The invariant `Inv` says that manager and database together hold exactly what the calls promise,
for any nesting, with calls outside a transaction, Begins that the server refuses, and Commits too many.
`PgAspectChain` runs whole command trees through this manager. What the callers saw is a tree of reports, and
`Surviving` reads off it which rows must be in the database. `Seen` gives a command tree its meaning without manager,
savepoints or database, and `LayersAreSeen` proves that they implement it.

**Jobs.** The state holds the live job, the stored snapshot, the job's current channel and the place of every
goroutine. One step is one method of `Job` or one store call; an action that is impossible where a goroutine
stands changes nothing, so every list of actions is a schedule. `MarkRunning` is unconditional, so a Cancel
can be overwritten. `Timely` is the condition under which it cannot: no executor or Retry has an attempt
ahead of it when the Cancel succeeds. Runs without a Cancel are timely, and so are runs whose Cancels succeed
on a running job only. What Cancels at any other time can do depends on the retry budget that the job was submitted
with: `CancelRaces` says exactly how.

**Clients.** Load and Save are atomic, the rest is local to a client. Every Append goes to both stores. An
event carries the id of the aggregate that it is applied to, since both stores file an event under its own id.
`EveryDecidedHistoryIsStored` shows that runs store every history that the guards allow, and `StoredEventsAreDecided`
that they store no other. `Sights` and `StoredSights` follow a run and note the state in which each event was applied. The runs of the
order repository are defined on their own and proved to keep what the runs without snapshots keep.

## Where the code differs from what is said about it

- docs/guide.md:1074-1083 names the first nested savepoint `sp_1`. The code starts counting at 2
  (pg/transaction.go:36-39 after :54), and so does the model.
- docs/architecture.md:374 and docs/guide.md:1076-1077 say that an inner rollback marks the transaction
  aborted and that the outer Commit checks the mark. In PostgreSQL the next successful nested Begin clears it
  (pg/transaction.go:46), so the outer Commit can return nil: `InnerRollbackMayBeForgotten` is a run that does,
  `ClosingReturnsNilIff` says exactly when a Commit returns nil, and `ManagersDisagreeIff` says exactly when
  the two managers answer a Commit differently. The data is right all the same (`CommittedExactly`): the writes
  of a rolled back scope are never committed.
- A Cancel that returns nil is not final for a pending job, or for a failed one that is about to be retried.
  `CancelIsFinalIff` says exactly when it is, from any state; `CancelIsFinalByStatus` and
  `CancelIsFinalByFields` tell it from the job; `CancelledIsPermanent` covers the runs whose Cancels find the job
  running; and `LastRetryCannotBeSeen` shows the one case that the fields of a job leave open.
- A job can run twice at the same time, and Completed can be overwritten. Over all schedules, with Cancels at any
  time, this happens exactly for jobs submitted with a retry budget (`AtMostOneExecutorIff`,
  `CompletedIsPermanentIff`); `CancelOfAPendingJobLetsItRunTwice` is a schedule for every such budget.
- A failed command can leave its writes committed, when an aspect outside the transaction returns an error after the
  commit. `FailedCommandLeavesNothing` rules out everything else, and a chain is all or nothing for all commands
  exactly when the transaction aspect is its outermost one (`AllOrNothingIff`).
- Over PostgreSQL a command can succeed although a nested command rolled back: its handler has to swallow the error
  and the transactional layer that ends last among the commands it dispatches has to return nil
  (`CommandSucceedsIff`).
- The two trace listings agree on all spans exactly for filters that set at most one of type, status, start,
  end and name (`ListingsAgreeIff`).
- An expired span survives an eviction when it stands behind a younger one (`NothingExpiredIsLeftIff`,
  `ExpiredSpanStaysBehindAYoungerOne`).
- The order repository registers an order only if every event was published, although the events are stored
  and no longer uncommitted by then (`Orders.OrderEventSourcedRepository.Save`).

## Model

| member | source | states |
|---|---|---|
| Postgres.Find | pg/transaction.go:77-82 | the savepoint a name refers to is the most recent one of that name |
| Postgres.Database.Run | pg/transaction.go:125-130 | a statement either takes effect or returns an error and changes nothing |
| Postgres.RollbackToCanBeRepeated | pg/transaction.go:112-112 | rolling back to a savepoint keeps it: after more work it can be repeated with the same effect |
| Postgres.ReleaseForgets | pg/transaction.go:82-82 | releasing a savepoint keeps the data and forgets exactly that savepoint and the later ones |
| PgTransaction.PromiseNext | pg/transaction.go:31-116 | for every run, what the calls alone promise (open scopes' starting data, surviving writes) moves with each call as a stack of nested scopes does |
| PgTransaction.HoldsNext | pg/transaction.go:31-116 | manager and database take the same step as a stack of nested scopes on data alone |
| PgTransaction.FlagNext | pg/transaction.go:46-46 | the aborted flag is cleared by a successful Begin, set by a Rollback, and kept by everything else |
| PgTransaction.FieldsStayOk | pg/transaction.go:31-116 | every call keeps: depth is the length of parentSp, open numbers ascend up to nextSpSeq, savepoint names ascend, the connection is open exactly while depth > 0 |
| PgTransaction.ClosingWorks | pg/transaction.go:58-116 | the statement of a Commit or Rollback never fails: it names a live savepoint that holds the data as of the scope's Begin |
| PgTransaction.ClosePops | pg/transaction.go:58-116 | ending a scope brings back the data of its Begin unless a Commit returned nil, and says when it returns nil |
| PgTransaction.KeptDrops | pg/transaction.go:75-90 | giving up a scope kills exactly the writes made since its Begin, those of committed inner scopes included |
| PgTransaction.KeptBefore | pg/transaction.go:58-116 | no call touches what was written before the scope that it ends |
| PgTransaction.InvHolds | pg/transaction.go:31-116 | after every call of every run the four fields and the savepoint stack hold exactly what the calls promise |
| PgTransaction.CommittedExactly | pg/transaction.go:31-116 | with no scope open, the committed data is the starting data plus, in order, exactly the writes all of whose scopes were closed by a Commit returning nil; while a scope is open nothing of the transaction is visible |
| PgTransaction.ClosingReturnsNilIff | pg/transaction.go:58-116 | a Commit returns nil exactly when a scope is open and the last successful Begin or Rollback was a Begin; a Rollback exactly when a scope is open |
| PgTransaction.StatementsAreSafe | pg/transaction.go:70-112 | every nested RELEASE or ROLLBACK TO names a live savepoint with the right data, and the savepoints of all other open scopes survive it with theirs |
| PgTransaction.OpenNumbersAscend | pg/transaction.go:32-47 | parentSp has one number per open scope, strictly increasing, at most nextSpSeq |
| PgTransaction.NumbersNeverReused | pg/transaction.go:36-39 | two successful Begins never take the same savepoint number, refused Begins in between or not |
| PgTransaction.InnerRollbackMayBeForgotten | pg/transaction.go:46-46 | a run in which an inner scope is rolled back and the outer Commit still returns nil and commits |
| PgTransaction.PgTransactionManager.Begin | pg/transaction.go:31-56 | takes the model's step; a refused Begin leaves manager and database as they were |
| PgTransaction.PgTransactionManager.Commit | pg/transaction.go:58-91 | takes the model's step, result and new state |
| PgTransaction.PgTransactionManager.Rollback | pg/transaction.go:93-116 | takes the model's step, result and new state |
| MemoryTransaction.FieldsMeanScopes | infra/memory_backend.go:29-71 | depth is the number of open scopes and aborted says whether anything was ever rolled back |
| MemoryTransaction.CommitReturnsNilIff | infra/memory_backend.go:40-56 | a Commit returns nil exactly when a scope is open and nothing was rolled back before it |
| MemoryTransaction.SameScopes | infra/memory_backend.go:29-71 | on the same operations both managers open and close the same scopes |
| MemoryTransaction.ManagersDisagreeIff | infra/memory_backend.go:40-56 | both managers answer a Commit alike except exactly when something was rolled back and a Begin followed the last rollback; then only PostgreSQL commits |
| MemoryTransaction.MemoryTransactionManager.Begin | infra/memory_backend.go:29-38 | one scope more on the state of the context, or a fresh state |
| MemoryTransaction.MemoryTransactionManager.Commit | infra/memory_backend.go:40-56 | one scope less; an error without a scope or after a rollback |
| MemoryTransaction.MemoryTransactionManager.Rollback | infra/memory_backend.go:58-71 | one scope less, aborted for good; an error without a scope |
| AspectChain.LayersAreBracketed | aspect/chain.go:222-253 | any command tree, any chain, any layer: each Begin is closed once and in nested order, the depth comes back, and nil is returned exactly when handler and hooks return nil and no command in the tree rolled back |
| AspectChain.ChildrenAreBracketed | aspect/chain.go:222-253 | the commands that a handler dispatches leave the context with its depth and a balanced log |
| AspectChain.CommitOnlyAfterSuccess | aspect/builtin/transaction.go:75-87 | Commit is called exactly when the handler and all inner layers returned nil, Rollback otherwise, with the inner calls in between |
| AspectChain.OutermostSucceedsIff | aspect/chain.go:210-220 | a whole command on a fresh context succeeds exactly when handler and hooks return nil and no nested command rolled back |
| AspectChain.TreeSucceedsIff | aspect/chain.go:222-253 | with the transaction as outermost aspect, a command on a fresh context succeeds exactly when every handler and hook in its whole tree returns nil: no error can be swallowed |
| AspectChain.HandlersRunInOrder | aspect/chain.go:229-231 | for any tree, chain and context exactly the commands whose hooks let them in are handled, each before the commands it dispatches, those in order and whichever of them fail |
| AspectChain.EachCommandBeginsPerLayer | aspect/builtin/transaction.go:75-77 | when all commands are let in, the number of Begins is that of the commands times that of the transactional layers, however the commands end |
| AspectChain.TransactionAspect.BeforeCommand | aspect/builtin/transaction.go:75-77 | begins a scope on the given context or on a fresh one |
| AspectChain.TransactionAspect.AfterCommand | aspect/builtin/transaction.go:79-87 | rolls back on an error and keeps it, commits otherwise |
| AspectChain.Chain.RegisterCommandAspect | aspect/chain.go:140-147 | the chain stays sorted by order and has exactly one aspect more |
| AspectChain.Chain.ExecuteWithCommandAspects | aspect/chain.go:210-220 | result, context and transaction calls are those of the layers from the first one inwards |
| AspectChain.Chain.RunCommandAspects | aspect/chain.go:222-253 | result, context and transaction calls are those of the layers from the given one inwards |
| AspectChain.Chain.DispatchAll | aspect/chain.go:229-231 | the handler's commands run one after the other on its context, with the result that the tree determines |
| PgAspectChain.CommandCommitsExactly | aspect/chain.go:222-253 | over PostgreSQL, for any command tree, chain, refusals and swallowed errors: no transaction stays open and the committed data has grown by exactly the rows all of whose enclosing transactional layers returned nil |
| PgAspectChain.LayersAreSeen | aspect/chain.go:222-253 | manager, savepoints and database implement the meaning of a command tree that is defined without them, at any point of the onion: same result, same reports |
| PgAspectChain.CommandDoesWhatTheTreeSays | aspect/chain.go:210-220 | result and committed data of a command on a fresh context are those of its tree, whatever in it fails or is refused |
| PgAspectChain.SuccessCommitsTheWholeTree | aspect/chain.go:222-253 | when nothing in the tree fails, the command returns nil and commits all rows of the tree, depth first |
| PgAspectChain.EveryDeedIsCarriedOut | aspect/chain.go:229-231 | whatever fails, every handler that is let in carries out all its deeds in order: each Insert gives its row, each Dispatch that is let in runs its own handler |
| PgAspectChain.LayersKeepTheSurviving | aspect/builtin/transaction.go:75-87 | at any point of the onion, in a transaction or not, the open scopes come back as they were and the visible data has grown by exactly the surviving rows |
| PgAspectChain.DeedsKeepTheSurviving | pg/transaction.go:125-130 | the same for the writes and commands of one handler |
| PgAspectChain.FailedCommandLeavesNothing | aspect/builtin/transaction.go:79-87 | all or nothing: a failed command commits nothing, if the aspects outside its outermost transactional layer, such as tracing, return nil after a success |
| PgAspectChain.AllOrNothingIff | aspect/chain.go:140-147 | a chain makes every command all or nothing exactly when its outermost aspect is the transactional one |
| PgAspectChain.FailsAndCommits | aspect/chain.go:222-253 | in any other chain some command fails with its row committed |
| PgAspectChain.LayersSetTheFlag | pg/transaction.go:46-46 | the aborted flag is told from what the callers saw: the error of the last transactional layer that ended |
| PgAspectChain.LayerReturnsNilIff | pg/transaction.go:58-91 | a transactional layer whose Begin was accepted returns nil exactly when its inner layers do and the last transactional layer that ended directly inside it, if any, returned nil |
| PgAspectChain.CommandSucceedsIff | aspect/chain.go:222-253 | at any layer, in a transaction or not: success exactly when handler and hooks return nil, no Begin is refused and, in a chain with a transactional layer, the transactional layer that ended last among the commands the handler dispatched, if any, returned nil |
| PgAspectChain.FreshCommandSucceedsIff | aspect/chain.go:210-220 | the same for a whole command on a fresh context; a command that succeeds commits all that survived in its handler |
| PgAspectChain.NilOnlyAfterSuccess | aspect/chain.go:222-253 | a command returns nil only if its handler, its Begins and the hooks of the other aspects did |
| PgAspectChain.PgChain.ExecuteWithCommandAspects | aspect/chain.go:210-220 | result, context, database and reports are those of the layers from the first one inwards |
| PgAspectChain.PgChain.RunCommandAspects | aspect/chain.go:222-253 | result, context, database and reports are those of the layers from the given one inwards; a refused Begin ends the command |
| PgAspectChain.PgChain.AfterCommand | aspect/builtin/transaction.go:79-87 | rolls back on an error and keeps it, commits otherwise |
| PgAspectChain.PgChain.RunHandler | aspect/chain.go:229-231 | the handler's deeds one after the other on its context |
| JobCore.Job.MarkRunning | job/core/job.go:119-124 | the status is running, whatever it was; nothing else changes |
| JobCore.Job.TryComplete | job/core/job.go:128-138 | completed with the result, or refused on a cancelled or pending job |
| JobCore.Job.TryFail | job/core/job.go:143-157 | failed with the message and one retry counted while the budget lasts, or refused on a cancelled or pending job |
| JobCore.Job.TryCancel | job/core/job.go:161-170 | cancelled unless completed or cancelled already |
| JobCore.Job.ResetForRetry | job/core/job.go:174-186 | only a failed job becomes pending, without result and error; the retry count stays |
| JobCore.Job.Done | job/core/job.go:189-196 | the current channel, an open one on first use |
| JobCore.Job.MarkDone | job/core/job.go:199-210 | the current channel is closed, closed before or not |
| JobCore.Job.ResetDone | job/core/job.go:213-217 | a new open channel; the old one stays as it was |
| JobCore.Job.Snapshot | job/core/job.go:220-243 | an equal job that shares nothing, its channel closed exactly when the job is at an end |
| JobCore.InMemoryJobStore.Create | job/memory/job_store.go:25-33 | stores a copy under a new id, refuses an existing one |
| JobCore.InMemoryJobStore.Get | job/memory/job_store.go:35-43 | a fresh copy of what is stored, nothing exactly for an unknown id |
| JobCore.InMemoryJobStore.Update | job/memory/job_store.go:45-53 | replaces the stored copy of that job and no other, refuses an unknown id |
| JobManager.InvStep | job/memory/job_manager.go:95-259 | every step of every goroutine, timely Cancels included, keeps the invariant: one active goroutine at most, its place fits the job's status, channels are closed and Retries reset only after the job has settled |
| JobManager.AtMostOneExecutor | job/memory/job_manager.go:95-163 | in every timely run, however many Retries race, at most one executor is between its spawn and its final TryFail or TryComplete |
| JobManager.RunsWithoutCancelAreTimely | job/memory/job_manager.go:171-207 | runs without Cancel are timely |
| JobManager.RunsThatCancelOnlyRunningJobsAreTimely | job/core/job.go:161-170 | runs in which TryCancel only ever succeeds on a running job are timely |
| JobManager.EndedForGood | job/core/job.go:128-186 | from any state, a job that is cancelled with no attempt ahead, or completed with no attempt ahead or under way, is changed by no schedule, and no attempt starts |
| JobManager.CompletedIsPermanent | job/memory/job_manager.go:150-160 | in timely runs Completed with its result is permanent |
| JobManager.CancelledIsPermanent | job/core/job.go:128-186 | in runs in which TryCancel only ever succeeds on a running job, whether store calls fail or not, Cancelled is permanent: no later step changes status or result and no attempt begins |
| JobManager.CancelIsFinalIff | job/memory/job_manager.go:176-195 | in every state a successful Cancel lasts under all schedules exactly when no goroutine has an attempt ahead of it |
| JobManager.CancelIsFinalByStatus | job/core/job.go:161-170 | in timely runs it lasts on a running job and on a failed one that will not be retried automatically, and, when store calls work, on no other |
| JobManager.CancelIsFinalByFields | job/core/job.go:161-170 | told from what a caller can read: it lasts on a failed job whose channel is closed; when store calls work, it does not on a pending job or a failed one with retries left |
| JobManager.AttemptStarts | job/memory/job_manager.go:112-112 | a goroutine with an attempt ahead has a schedule that marks the job running, whatever its status |
| JobManager.AttendedStep | job/memory/job_manager.go:144-148 | a job that waits for an attempt always has a goroutine that will start it |
| JobManager.WaitersAreReleased | job/memory/job_manager.go:140-161 | with working store calls, in every interleaving: once all executors have ended and no Retry is about to spawn one, the job's channel is closed, so nobody waits for ever |
| JobManager.RetryReopensTheChannel | job/memory/job_manager.go:226-226 | in every run, a Retry that resets the job gives it a channel that it never had and that is open |
| JobManager.FailedRetryStrandsTheJob | job/memory/job_manager.go:228-230 | in timely runs a Retry whose store update fails leaves a pending job that no goroutine will run |
| JobManager.ResetJobStaysPending | job/memory/job_manager.go:138-158 | a job that was reset while the command ran stays pending and fresh, whatever Execute returns; after an error it is stored again |
| JobManager.AttemptIsARun | job/memory/job_manager.go:112-161 | the interleaved model's steps of one executor do to job, store and channel what the loop body does |
| CancelRaces.AtMostOneExecutorIff | job/memory/job_manager.go:95-163 | over all schedules, with any Retries and with Cancels at any time, at most one executor is ever live exactly when the job has no retry budget |
| CancelRaces.CompletedIsPermanentIff | job/core/job.go:128-157 | over all schedules, with Cancels at any time, Completed with its result is permanent exactly when the job has no retry budget |
| CancelRaces.OneAtMostStep | job/core/job.go:119-186 | without retries left every step, Cancels at any time included, keeps: one active goroutine at most, none while failed or completed, none inside an attempt while pending |
| CancelRaces.CancelOfAPendingJobLetsItRunTwice | job/memory/job_manager.go:176-195 | for every positive budget a schedule with a Cancel of the pending job that ends with two executors inside Execute |
| CancelRaces.SecondExecutorOverwrites | job/core/job.go:128-157 | and one in which the second executor turns Completed with its result into Failed |
| CancelRaces.LastRetryCannotBeSeen | job/core/job.go:143-157 | two runs that leave job, store and channel alike, a failed job with all retries counted and an open channel; a Cancel is final after one of them only |
| JobManager.LedgerStep | job/core/job.go:143-157 | every step keeps: Execute calls made and still to come are one for Submit, one per successful Retry and one per counted retry |
| JobManager.ContinueSpendsARetry | job/memory/job_manager.go:144-149 | in every interleaving each `continue` makes maxRetries - retryCount, which was positive, smaller by one, and nothing else changes it |
| JobManager.RoundsAreCounted | job/core/job.go:152-155 | between any two points of a run the retry count grows by exactly the number of times a loop was continued |
| JobManager.RetryBudget | job/core/job.go:143-157 | in all interleavings, Cancel races included: the retry count is at most maxRetries and equals the number of continues, and Execute is called at most maxRetries + 1 times plus once per successful Retry |
| JobManager.RetryCountNeverDecreases | job/core/job.go:143-157 | the retry count never goes down between two points of a run |
| JobManager.StoreFollowsJob | job/memory/job_store.go:45-53 | every schedule of working store calls keeps: the store equals the live job or a goroutine stands before its update |
| JobManager.QuietStoreHoldsTheJob | job/memory/job_store.go:45-53 | whenever no goroutine stands between a change and its update, the stored snapshot equals the live job in status, result, error and retry count |
| JobManager.JobManager.Submit | job/memory/job_manager.go:78-93 | a stored and registered pending job, or nothing when the store refuses |
| JobManager.JobManager.Attempt | job/memory/job_manager.go:112-161 | one attempt, the job known to the store or not: continues exactly after a failure within the budget that was not cancelled; otherwise the channel is closed; job and stored copy are exactly what the model's run of an attempt leaves, and a cancelled job keeps result and error |
| JobManager.JobManager.ExecuteJob | job/memory/job_manager.go:95-163 | undisturbed except by Cancels during Execute, tries until the first success, a Cancel, or the end of the budget; every retry was counted and the loop ends |
| JobManager.JobManager.Cancel | job/memory/job_manager.go:171-207 | cancels the live job, closes its channel and stores it, or cancels the stored job; the error cases change no stored job |
| JobManager.JobManager.Retry | job/memory/job_manager.go:210-259 | resets a failed live job whose channel is closed, reopens the channel and stores it; makes a failed job that only the store knows a live one; every other case is an error that changes no stored job |
| MemoryEventStore.FilingKeepsConsistent | cqrs/impl/memory/event_store.go:120-138 | any batch keeps positions at 1..n and every stream the subsequence of the global log with its id; the log only grows |
| MemoryEventStore.FilingExtendsOneStream | cqrs/impl/memory/event_store.go:120-138 | a batch of one aggregate extends that stream by the batch and no other |
| MemoryEventStore.ConsumerReadsAPrefix | cqrs/impl/memory/event_store.go:170-210 | a consumer that polls from its last position with any limits, Appends in between, has read exactly a prefix of the log, each event once |
| MemoryEventStore.UnlimitedPollCatchesUp | cqrs/impl/memory/event_store.go:186-189 | a poll without a limit leaves nothing unread |
| MemoryEventStore.LimitedPollReadsExactly | cqrs/impl/memory/event_store.go:186-189 | a poll with a limit reads exactly that many further entries, or all that are left |
| MemoryEventStore.EnoughPollsCatchUp | cqrs/impl/memory/event_store.go:170-210 | with any positive limit, as many polls as there are unread entries leave nothing unread |
| MemoryEventStore.FilingLogsTheBatch | cqrs/impl/memory/event_store.go:120-138 | a batch adds its events, in order and nothing else, to the global log |
| MemoryEventStore.FirstAfter | cqrs/impl/memory/event_store.go:174-180 | the start of a page: everything before it is at or before the position, the entry there is after it |
| MemoryEventStore.EventSourceStore.Append | cqrs/impl/memory/event_store.go:111-140 | accepts exactly the length of the stream as version, then files each event under its own id and logs the batch; otherwise changes nothing |
| MemoryEventStore.EventSourceStore.Load | cqrs/impl/memory/event_store.go:142-168 | the stream after the version, empty beyond its end and for an unknown aggregate |
| MemoryEventStore.EventSourceStore.LoadAll | cqrs/impl/memory/event_store.go:170-210 | from the first later entry on, as many entries as there are, or as the limit allows when it is positive |
| PgEventStore.KeysAre1ToN | pg/migrate.go:22-32 | the unique keys taken by a contiguous stream are exactly 1..n |
| PgEventStore.InsertFromExtends | cqrs/impl/pg/event_store.go:119-141 | inserts expected at the end of a stream all succeed, extend it by the batch, and leave the other aggregates alone |
| PgEventStore.AppendChecksTheVersion | cqrs/impl/pg/event_store.go:119-141 | with no version check, a nonempty batch expected at a version that the stream has reached is accepted exactly when that version is the last; otherwise nothing is stored |
| PgEventStore.InsertsExactly | cqrs/impl/pg/event_store.go:119-141 | on any rows and any batch: the inserts succeed exactly when no event's own key is taken, whatever the length of the stream, and add the events in order, each under its own id and next version |
| PgEventStore.InsertsUpToTheViolation | cqrs/impl/pg/event_store.go:119-141 | the loop inserts the rows of exactly the events before the first one whose key is taken |
| PgEventStore.InsertedIsAllOrPart | cqrs/impl/pg/event_store.go:119-141 | the loop only adds rows: all of the batch when it succeeds, a proper part when it stops at a violation |
| PgEventStore.LoadGivesTheRest | cqrs/impl/pg/event_store.go:143-149 | loading a contiguous stream after any version, negative ones included, gives the rest in order |
| PgEventStore.OrderedAlready | cqrs/impl/pg/event_store.go:148-148 | ordering by version does not move rows whose versions ascend |
| PgEventStore.OrderedByVersion | cqrs/impl/pg/event_store.go:148-148 | any rows come back by version, none lost and none added |
| PgEventStore.EventSourceStore.Append | cqrs/impl/pg/event_store.go:102-117 | in a transaction of its own all rows of the batch or none; in the caller's transaction the rows up to a violation stay for the caller to undo |
| PgEventStore.EventSourceStore.AppendEvents | cqrs/impl/pg/event_store.go:119-141 | inserts one row per event under its own id up to the first taken key, and leaves exactly those |
| PgEventStore.EventSourceStore.LoadEvents | cqrs/impl/pg/event_store.go:143-180 | the payloads of the aggregate's rows after the version, by version |
| Aggregates.ReplayContinues | domain/aggregate/aggregate.go:110-117 | a replay may stop after any number of events and go on from the state reached |
| Aggregates.NoReplayPast | domain/aggregate/aggregate.go:110-117 | a history with an unhandled event cannot be replayed to any later point |
| Aggregates.Aggregate.Apply | domain/aggregate/aggregate.go:86-94 | new state, version and uncommitted list, or the error of When and no change |
| Aggregates.Aggregate.ApplyPast | domain/aggregate/aggregate.go:99-106 | new state and version, or the error of When and no change |
| Aggregates.Aggregate.LoadHistory | domain/aggregate/aggregate.go:110-117 | the fold of When over the events; an error exactly when one is not handled, with the events before it applied |
| Aggregates.Aggregate.Expected | domain/aggregate/aggregate.go:65-67 | the version before the uncommitted events |
| Aggregates.Aggregate.SetSnapshot | domain/aggregate/aggregate.go:71-74 | version and snapshot version are the given one |
| Aggregates.Aggregate.MarkCommitted | domain/aggregate/aggregate.go:128-130 | nothing is uncommitted any more; the version stays |
| SnapshotRepository.LoadEqualsReplay | infra/repository/pg/repository.go:204-233 | snapshot plus later events give the domain state and version of replaying the whole stream on a fresh aggregate; not found exactly on an empty stream |
| SnapshotRepository.SaveExactly | infra/repository/pg/repository.go:186-202 | once the events are appended: a snapshot of the new version is written exactly when that is a multiple of snapshotEvery and the client knows the stored one; otherwise a due snapshot is a lock error that leaves events stored and uncommitted |
| SnapshotRepository.PgEventSourcedRepository.SaveAggregate | infra/repository/pg/repository.go:186-202 | appends, snapshots when due and clears the uncommitted events, with the state that each error leaves behind |
| SnapshotRepository.PgEventSourcedRepository.WriteSnapshot | infra/repository/pg/repository.go:235-281 | inserts the first snapshot, replaces one of the version known, refuses otherwise |
| SnapshotRepository.PgEventSourcedRepository.LoadAggregate | infra/repository/pg/repository.go:204-233 | from the snapshot if there is one, then the later events; tells not found from a snapshot or history that cannot be read |
| ClientRuns.SaveOutcome | infra/repository/pg/repository.go:186-281 | a Save is accepted exactly when the client has replayed the whole stream; then its snapshot write succeeds, and streams, rows, snapshots and the client are in order again |
| ClientRuns.InvHolds | infra/repository/pg/repository.go:186-281 | after every run: rows and memory streams agree, every event was decided on the fold of those before it, every snapshot is the fold of a prefix, and every client is a prefix plus its own events |
| ClientRuns.StoresAgree | cqrs/impl/pg/event_store.go:119-141 | over whole runs the PostgreSQL store holds the streams of the memory store with versions 1..n and takes and refuses exactly the same batches |
| ClientRuns.NoLockErrorAfterAppend | infra/repository/pg/repository.go:186-281 | a Save whose Append is accepted never gets an OptimisticLockError, since a client at the end of the stream knows the stored snapshot |
| ClientRuns.LoadIsReplay | infra/repository/pg/repository.go:204-233 | in every reachable state Load gives the replay of the whole stream, or not found when it is empty, and never breaks |
| ClientRuns.SnapshotTakenIff | infra/repository/pg/repository.go:195-199 | in every reachable state an accepted Save stores a snapshot of the new version exactly when that is a multiple of snapshotEvery; all other snapshots stay |
| ClientRuns.StoredSnapshotsAreMultiples | infra/repository/pg/repository.go:195-199 | over whole runs with one setting snapshots are stored only at its multiples, and none without a positive setting |
| ClientRuns.StoredEventsAreDecided | domain/aggregate/aggregate.go:86-94 | every stored event passed its command's guard in the state that exactly the events before it lead to |
| ClientRuns.EveryDecidedHistoryIsStored | domain/aggregate/aggregate.go:86-117 | every history that the guards allow is the stream of some run of creating, loading, applying and saving, with any snapshot setting |
| ClientRuns.StreamsGrowByBatches | cqrs/impl/memory/event_store.go:111-140 | each step extends one stream by one client's whole batch, or none |
| ClientRuns.ClientsSeeFolds | domain/aggregate/aggregate.go:65-94 | in every run, each event that a client has not saved yet was applied in the fold of the prefix it loaded and its own earlier events |
| ClientRuns.NoLostUpdate | domain/aggregate/aggregate.go:65-130 | in every run, for each stored event, the state that its client saw when it applied it is the fold of exactly the events stored before it |
| Orders.DecidedOrderIsALife | exampleapp/ddd/order/domain/model.go:121-198 | the guards let only Placed (Paid (Shipped or Cancelled)? or Cancelled)? through |
| Orders.LifeIsDecided | exampleapp/ddd/order/domain/model.go:121-198 | and they let every such life through |
| Orders.StoredOrdersAreLives | exampleapp/ddd/order/repository/repository.go:87-117 | in every run of the order repository, under any interleaving of clients, every stored order stream is such a life: nothing shipped unpaid, cancelled after shipping, or moved again after its end |
| Orders.EveryLifeIsStored | exampleapp/ddd/order/repository/repository.go:87-117 | and every such life is the stream of some run of the order repository |
| Orders.FieldsAreThoseOfTheLastEvents | exampleapp/ddd/order/domain/model.go:121-142 | after any events each field is what the last event of its own kind says, and the status that of the last event |
| Orders.TotalOfConcat | exampleapp/ddd/order/domain/model.go:218-224 | the total of two lists of items is the sum of their totals |
| Orders.TotalOfOne | exampleapp/ddd/order/domain/model.go:59-61 | the total of one item is its price times its quantity |
| Orders.SnapshottedOrdersAreLives | infra/repository/pg/repository.go:186-233 | the same for orders in the snapshotting repository, with any snapshot setting |
| Orders.RunsAlike | exampleapp/ddd/order/repository/repository.go:87-117 | every run of the order repository keeps the events and orders that the snapshotting repository keeps without snapshots |
| Orders.OrderRepositoryTakesTheSameSteps | exampleapp/ddd/order/repository/repository.go:87-117 | in every reachable state the order repository on the memory store saves and loads as the steps of the runs do |
| Orders.Order.When | exampleapp/ddd/order/domain/model.go:121-142 | assigns the fields that belong to the event, or refuses an unhandled one |
| Orders.Order.Apply | exampleapp/ddd/order/domain/model.go:144-146 | an event applied, one version more and one uncommitted event more, or no change |
| Orders.Order.LoadFromHistory | exampleapp/ddd/order/domain/model.go:148-150 | the fold of When over the events; an error exactly when one is not handled, with the events before it applied |
| Orders.Order.MarkEventsAsCommitted | domain/aggregate/aggregate.go:128-130 | nothing is uncommitted any more; the version stays |
| Orders.Order.Validate | exampleapp/ddd/order/domain/model.go:200-216 | accepts exactly an order with an id, a version that is not negative, a user, at least one item, and a product in every item |
| Orders.Order.CalculateTotal | exampleapp/ddd/order/domain/model.go:218-224 | the sum of price times quantity over the items |
| Orders.Order.ConfirmPayment | exampleapp/ddd/order/domain/model.go:160-170 | takes a pending order to paid, refuses any other |
| Orders.Order.Ship | exampleapp/ddd/order/domain/model.go:172-182 | takes a paid order to shipped, refuses any other |
| Orders.Order.Cancel | exampleapp/ddd/order/domain/model.go:184-198 | cancels any order that is neither cancelled nor shipped |
| Orders.NewOrder | exampleapp/ddd/order/domain/model.go:84-109 | refuses exactly a missing id, user, item or product; otherwise a blank order with the one event that places it, total included |
| Orders.OrderEventSourcedRepository.Save | exampleapp/ddd/order/repository/repository.go:87-102 | appends, clears, publishes in order up to the first refusal, and registers the order exactly when all were taken |
| Orders.OrderEventSourcedRepository.Load | exampleapp/ddd/order/repository/repository.go:104-117 | the replay of the whole stream, nothing when it is empty or cannot be replayed |
| TraceStore.FirstFresh | trace/store.go:108-111 | the eviction loop stops at the first span that did not start before the cutoff |
| TraceStore.FirstValid | trace/store.go:108-115 | at most maxSpans spans remain |
| TraceStore.AllIsRecorded | trace/store.go:95-103 | a run accounts for every recording, in order, and for nothing else |
| TraceStore.RetainedIsASuffix | trace/store.go:95-121 | after any run with any clocks the retained spans are the newest of those recorded, at most maxSpans |
| TraceStore.FreshSpansAreRetained | trace/store.go:105-121 | in whatever order spans are recorded, with a clock that does not run backwards every unexpired span of the newest maxSpans is retained |
| TraceStore.RetainedExactly | trace/store.go:105-121 | with spans also recorded in the order of their start, nothing else is retained: exactly the unexpired ones of the newest maxSpans |
| TraceStore.NothingExpiredIsLeftIff | trace/store.go:105-121 | an eviction leaves no expired span exactly when no unexpired span stands before an expired one of the newest maxSpans |
| TraceStore.ExpiredSpanStaysBehindAYoungerOne | trace/store.go:108-111 | a run of two recordings after which an expired span is still retained |
| TraceStore.PositionsAscend | trace/store.go:123-128 | the positions of a trace ascend |
| TraceStore.PositionsExactly | trace/store.go:123-128 | they are exactly the places of its spans |
| TraceStore.IndexedIff | trace/store.go:135-138 | a trace is in the index exactly when a retained span has its id |
| TraceStore.IndexGrows | trace/store.go:98-100 | adding the new position keeps the index exact for the longer log |
| TraceStore.PositionsSelectSpans | trace/store.go:140-143 | reading the log at the positions of a trace is plain filtering by its id |
| TraceStore.AnyMatch | trace/store.go:173-180 | true exactly when some span satisfies the predicate |
| TraceStore.MatchesFilterMeans | trace/store.go:182-202 | a trace matches exactly when each condition that is set is met by some span of it |
| TraceStore.FieldsOfAFilter | trace/store.go:182-202 | what each field of a filter asks for on its own, bounds included, and that its zero value asks for nothing |
| TraceStore.InMemoryTraceStore.RecordSpan | trace/store.go:95-103 | appends, evicts, and keeps the index exact |
| TraceStore.InMemoryTraceStore.Evict | trace/store.go:105-121 | drops what is to be dropped and keeps the index exact |
| TraceStore.InMemoryTraceStore.CountExpired | trace/store.go:108-111 | the loop of evict finds the first span that is not expired |
| TraceStore.InMemoryTraceStore.RebuildIndex | trace/store.go:123-128 | the index is exact, whatever it was |
| TraceStore.InMemoryTraceStore.GetTrace | trace/store.go:131-146 | the retained spans of the trace in order; not found exactly when there is none |
| TraceStore.InMemoryTraceStore.Collect | trace/store.go:140-143 | the spans at the indexed positions are those that plain filtering selects |
| TraceStore.InMemoryTraceStore.ListTraces | trace/store.go:149-171 | exactly the traces that meet the filter, each once |
| TraceLike.EscapeLikeIsCharacterwise | trace/pg/trace_store.go:135-140 | the three successive replacements are one backslash before each backslash, percent and underscore |
| TraceLike.EscapedMatchesLiterally | trace/pg/trace_store.go:135-140 | an escaped text in front of any pattern matches itself and nothing else |
| TraceLike.PatternMeansContains | trace/pg/trace_store.go:109-111 | for all names and texts, the name matches the pattern exactly when it contains the text |
| PgTraceStore.PgTraceStore.AddClause | trace/pg/trace_store.go:84-113 | one clause more: the placeholder refers to the new argument, earlier clauses keep theirs |
| PgTraceStore.PgTraceStore.AddCondition | trace/pg/trace_store.go:84-113 | a condition that is set narrows the query to the rows that meet it, one that is not changes nothing |
| PgTraceStore.PgTraceStore.BuildQuery | trace/pg/trace_store.go:78-113 | clauses and arguments together select exactly the rows that meet every condition set |
| PgTraceStore.PgTraceStore.ListTraces | trace/pg/trace_store.go:78-133 | exactly the traces with a span that meets every condition set |
| PgTraceStore.PgListingIsContained | trace/store.go:149-202 | what PostgreSQL lists the memory store lists too, on the same spans |
| PgTraceStore.OneConditionAgrees | trace/store.go:149-202 | with at most one of type, status, start, end and name set, the listings agree |
| PgTraceStore.TwoConditionsDisagree | trace/store.go:149-202 | with two of them set, whatever their values, some spans are listed by the memory store only |
| PgTraceStore.ListingsAgreeIff | trace/store.go:149-202 | the listings agree on all spans exactly when at most one of them is set |

## Left out

- Wall-clock time, timeouts, context cancellation and Go's scheduler: clocks, command outcomes, hook and bus results are inputs, and schedules are arbitrary sequences of atomic steps.
- Statements other than BEGIN and SAVEPOINT that fail, PostgreSQL's failed-transaction state and lost connections; a RELEASE, ROLLBACK TO or COMMIT fails here only without its savepoint or transaction, which is proved not to happen.
- Postgres.Database.Run: a failed statement leaves the transaction as it was, where PostgreSQL refuses all but a rollback from then on.
- PgEventStore.EventSourceStore.Append: in a caller's transaction it says which rows were inserted, not that the server refuses further statements after a violation.
- SnapshotRepository.PgEventSourcedRepository.SaveAggregate: runs outside a transaction of the caller, so that a lock error leaves the appended events in place.
- Several goroutines that share one transaction state through event handlers, and panics in handlers: dispatch is synchronous.
- The query and event copies of the aspect chain, which have the same shape as the command one.
- AspectChain.Chain.SortLast: places the last aspect of a chain that is sorted before it, as registering leaves it, by exchanges; the source calls a library sort, which may also reorder aspects of equal order.
- Shutdown, Wait, crash recovery and the PostgreSQL job store; `stopCh` is never closed. Runs start with Submit, so a job that exists only in the store is met by the methods Cancel and Retry alone. The cancelers map only influences what Execute returns, which is an input.
- JobManager.JobManager.Submit: spawning the executor is a step of the interleaved model and not part of the method.
- JobManager.JobManager.Retry: spawns no executor either, and with no other goroutine at work an open channel means that the caller gives up; waiting beside others is a step of the interleaved model.
- JobManager.JobManager.ExecuteJob: meets Cancels only while the command runs; all other interleavings, and store calls that fail for other reasons than an unknown job, are in the step-wise model.
- JobManager.JobManager.Attempt: one pass of the loop of `executeJob` as a method of its own, as undisturbed as that.
- RestoreJobState and its transition table, which no other job method consults.
- Reflection, object pools, JSON and the copies of events that the memory store takes: events are values, and snapshots are assumed to round-trip the domain state.
- The items of an order after a replay: they are no part of its events and so of no replay equality. `NewOrderForReplay` panics on an empty id; here it does not.
- Orders.Order.CalculateTotal: adds reals, where the source adds floats with rounding.
- Several clients that share one order object through the plain order repository: each client holds its own.
- Several types of aggregate behind one snapshot table: a repository has one type, so a snapshot is found by its id.
- The global log of the PostgreSQL store: numbers of a sequence have gaps and become visible out of order.
- MemoryEventStore.EventSourceStore.Load: requires a version that is not negative on a known aggregate, since the source slices with it and would panic; the snapshotting repository passes -1 and is paired with the PostgreSQL store.
- A negative `maxSpans`, with which eviction would slice out of range.
- Trace spans are values; the order in which a listing returns trace ids is not fixed. The PostgreSQL `GetTrace`, its row scanning and its ordering by start are left out.
- HTTP viewers, dashboards, statistics, configuration, logging, metrics and the lint analyzers.
