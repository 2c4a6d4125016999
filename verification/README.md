# Verified model of the agent platform's transactional core

The platform takes chat messages over a gateway, runs them through agent workers that share
sessions, projects the results into summaries and memories, moves tenants between storage
profiles while they stay online, charges model calls against budgets, and keeps an audit
chain.  This project models that core in Dafny and proves what it promises over every run.

Each database transaction is one atomic step.  Everything between transactions - duplicated
and reordered deliveries, crashed workers, expired leases, late replays, outages - is
arbitrary interleaving of steps.  A whole-run theorem is stated about `Run(actions)` for every
sequence of actions.

| area | modules |
|---|---|
| sessions: tables and transactions, the multi-worker protocol, its theorems, the store | `SessionTables`, `SessionProtocol`, `SessionTheorems`, `SessionStore` |
| projections: bounded summaries, confluence of summary and memory | `SummaryText`, `Projections`, `ProjectionStore` |
| storage migration: adapter, convergence, fingerprints, executor, evidence, control plane | `StorageAdapter`, `MigrationData`, `Fingerprint`, `MigrationExecutor`, `MigrationEvidence`, `MigrationControl`, `MigrationStore`, and both planes together in `MigrationSite`, `MigrationEndToEnd`, with a whole run in `MigrationExamples` |
| budgets: books and ledger, reserve, runs, theorems, unowned reservations, telling runs, the service | `Budgets`, `BudgetLedger`, `BudgetReserve`, `BudgetRuns`, `BudgetTheorems`, `BudgetOrphans`, `BudgetExamples`, `BudgetStore` |
| audit: chain, tamper evidence, manifests | `AuditChain`, `AuditManifest` |
| algorithms: fallback search, rate limiter, consumer offsets, reply splitting | `FallbackSearch`, `RateLimiter`, `KafkaConsumer`, `ReplySplit`, `ReplyBalance` |

Pure code is modelled by functions; code that changes rows or fields is a class whose methods
are proved to compute the specification functions that the theorems are about, with the
source's loops.  SHA-256 is a parameter and never assumed injective: where a result depends on
it, the conclusion is "equal, or these two strings, computed from the very data compared, collide".

## Where the code and the obvious statement differ

- Renewing a lease extends it by the fencing token, not by the configured time to live
  (`SessionStore.RenewalLength`).  Safety does not depend on the length.
- FAILED is not final: a commit refuses only SUCCEEDED (`SessionTheorems.CommitsExactlyWhen`,
  `SessionTheorems.FailureIsNotFinal`, with the run in `SessionTheorems.FailedThenSucceeded`).
- A backfill never deletes, so keys the snapshot lacks survive it
  (`MigrationData.StaleKeysDecide`, `MigrationData.RepeatedBackfillKeepsErasedKeys`), and the
  source takes writes until the switch (`MigrationData.LateWritesAreLost`).
- Fingerprints separate fields by NUL and do not escape it
  (`MigrationEvidence.NulBytesDefeatValidation`, with an instance for every hash in
  `MigrationEvidence.NulBytesExample`).
- A rollback copies back without deleting, so after an erasure on the new profile its
  validation is never accepted and the tenant stays fenced; the fence also keeps out every
  routed write that could mend it (`MigrationEndToEnd.StaleRollbackNeverEnds`,
  `MigrationEndToEnd.ErasureStrandsRollback`, with a run for every hash in
  `MigrationExamples.ErasureStrandsPlatform`).  The exact condition is
  `MigrationEndToEnd.RollbackEndsExactlyWhen`.
- The routing query blocks a profile for any failed or rolled back migration that ever
  targeted it, so a later, successful migration to it leaves the tenant without a routable
  profile (`MigrationControl.ResolverAgreesExactlyWhen`,
  `MigrationControl.RetriedTargetIsUnroutable`).
- Settling or releasing a contingency draw lowers the wrong counter
  (`BudgetTheorems.ReservedIsOpenExactlyWhen`,
  `BudgetExamples.ContingencySettlementUnbalances`), may be impossible
  (`BudgetTheorems.SettlementRefusedExactlyWhen`, `BudgetExamples.LoneDrawCannotSettle`), and
  SETTLE and RELEASE of one reservation do not exclude each other
  (`BudgetLedger.SecondClosingUnbalances`).
- Some reservations reach no call and are never settled or released: those of a transaction
  that committed although the database raised an error, and the draws of a recovery that then
  stops at a level that cannot pay, since it returns inside its transaction.  These are all
  (`BudgetOrphans.OrphansAreTheLeaks`, `BudgetOrphans.OrphanedExactlyWhen`), and both occur
  (`BudgetExamples.RaisedCommitLeaks`, `BudgetExamples.StoppedRecoveryLeaks`).
- A budget whose own limit is zero cannot record an alert, so a reservation that its
  allowance would admit aborts (`BudgetReserve.BreaksExactlyWhen`,
  `BudgetExamples.ZeroLimitAborts`).
- Recomputing the audit chain does not compare with the stored head, so a truncated chain
  still verifies (`AuditChain.PrefixStillLinked`).
- A sealer reads its rows before its manifest index.  Another sealer that commits between the
  two reads makes it archive the same segment again; one that commits after them makes its
  insert fail on the primary key (`AuditManifest.InterleavedSealing`, with the double archive
  in `AuditManifest.OverlapArchivesTwice`).
- A consumer cancelled while it publishes a dead letter does not seek back and can lose the
  record (`KafkaConsumer.PollKeepsInvExactlyWhen`, `KafkaConsumer.CancelledBurialLosesRecord`).
- A dead letter whose commit is lost before a rebalance is delivered again, so a record can
  fail more often than the maximum (`KafkaConsumer.ExceedsExactlyWhen`), without bound
  (`KafkaConsumer.FailuresUnbounded`).  Without a rebalance it cannot
  (`KafkaConsumer.RefailTakesRebalance`, `KafkaConsumer.NoRebalanceNoExcess`).
- Reply pieces can bisect Markdown, although the boundary's documentation says they never do:
  when the hard limit is forced (`ReplyBalance.LongLinkIsBisected`), and when a cut at a
  balanced limit splits a fence (`ReplyBalance.SplitFenceExample`).  The exact condition is
  `ReplyBalance.BalancedExactlyWhen`.

## Model

| member | source | states |
|---|---|---|
| `SessionTheorems.ExactlyOnceEffect` | trpc_service/agent_worker.py:370-485 | after any run of submissions, duplicated deliveries, lease steps, failures and commits, a known message has exactly one request record, and one committed batch and one completion record exactly when its execution is SUCCEEDED; an unknown message has none |
| `SessionTheorems.SuccessIsFinal` | trpc_service/agent_gateway.py:157-280 | a message keeps the execution it was first given, and SUCCEEDED is never left |
| `SessionTheorems.ResubmissionGetsFirst` | trpc_service/agent_gateway.py:182-280 | every later submission of a known message, admitted or not, gets the first execution or a payload conflict, and adds neither an execution nor an Outbox record |
| `SessionTheorems.CommitsExactlyWhen` | trpc_service/sessions.py:199-272 | a commit goes through if and only if there are events, the execution exists and is not SUCCEEDED, the lease is held under the token, and the version is the expected one |
| `SessionTheorems.FailureIsNotFinal` | trpc_service/agent_worker.py:478-485 | in every run, marking an execution FAILED does not stop another worker that is about to commit it |
| `SessionTheorems.FailedThenSucceeded` | trpc_service/agent_worker.py:370-485 | the run: one message delivered to two workers is FAILED after the one's mark and SUCCEEDED after the other's commit |
| `SessionTheorems.FailureTouchesOne` | trpc_service/agent_worker.py:478-485 | after any run, marking a failure changes that one execution and only if it is PENDING; a success and every other row and table are kept |
| `SessionTheorems.TokensStrictlyIncrease` | trpc_service/sessions.py:98-130 | per session the tokens of committed batches strictly increase, so a grant commits at most once |
| `SessionTheorems.AcquireOutdates` | trpc_service/sessions.py:98-130 | a successful acquire gets a token above every grant and every batch of the session so far |
| `SessionTheorems.OutdatedGrantsNeverCommit` | trpc_service/sessions.py:209-220 | once the lease has moved past a token, no batch is ever committed under it |
| `SessionTheorems.LaterBatches` | trpc_service/sessions.py:209-250 | batches are only appended, and every later one starts at or after the version and the token of the moment |
| `SessionTheorems.NoBatchBetweenGrantAndCommit` | trpc_service/agent_worker.py:370-466 | between a worker's reading of the version with its grant and its commit, no other batch is written to the session |
| `SessionTheorems.LogTiled` | trpc_service/sessions.py:222-272 | event sequences are exactly 1 to the version, and each event lies in exactly one committed Outbox range |
| `SessionTheorems.SequenceNeverTaken` | trpc_service/sessions.py:222-250 | the unique-key error on an event row cannot happen in any run |
| `SessionTheorems.RunOnward` | trpc_service/agent_worker.py:370-466 | a delivery's handling only moves forward and keeps its envelope and grant |
| `SessionProtocol.RunKeepsInv` | trpc_service/agent_worker.py:370-485 | every reachable state satisfies the protocol invariant: gap-free tiled logs, at most one effect of each kind per message, settled statuses, serial batches, stale spent grants |
| `SessionProtocol.RunExtends` | trpc_service/sessions.py:171-272 | along a run, tables only grow: executions and events are kept, versions and tokens never fall |
| `SessionProtocol.FinishOutcome` | trpc_service/agent_worker.py:425-466 | a final transaction that goes through held the lease under its token at the expected version, and wrote the batch, the version, the range, the status and the completion record together |
| `SessionStore.Store.DeduplicatedSubmission` | trpc_service/agent_gateway.py:157-181 | the look-up answers with the first execution, a payload conflict, or nothing, as `Deduplicate` says |
| `SessionStore.Store.AdmitAndInsertExecution` | trpc_service/agent_gateway.py:182-280 | admission, session, execution and Outbox rows are inserted together or not at all, as `AdmitAndInsert` says |
| `SessionStore.Store.AcquireLease` | trpc_service/sessions.py:98-130 | takes a free or expired lease under the next token and returns the version, else fails, as `Acquire` says |
| `SessionStore.Store.RenewLease` | trpc_service/sessions.py:132-151 | extends only the lease held under owner and token, as `Renew` says |
| `SessionStore.Store.ReleaseLease` | trpc_service/sessions.py:153-168 | expires only the owner's lease and keeps its token |
| `SessionStore.Store.InsertEvents` | trpc_service/sessions.py:222-240 | the insert loop writes exactly the batch's rows after the version |
| `SessionStore.Store.CommitEvents` | trpc_service/sessions.py:171-272 | the commit transaction is `CommitSessionEvents` |
| `SessionStore.Store.Finish` | trpc_service/agent_worker.py:425-466 | the worker's final transaction is `FinishExecution` |
| `SessionStore.RenewalLength` | trpc_service/sessions.py:132-151 | a renewal lasts the configured time to live if and only if that equals the fencing token |
| `SummaryText.SelectFragments` | trpc_service/job_worker.py:340-364 | the backward loop keeps exactly the bounded suffix of the joined fragments and finds the oldest one used |
| `SummaryText.SummaryProjection` | trpc_service/job_worker.py:340-364 | returns a summary in the sense of `IsSummary` |
| `SummaryText.SummaryUnique` | trpc_service/job_worker.py:340-364 | text and source version are determined by the events |
| `SummaryText.SummaryIsSuffix` | trpc_service/job_worker.py:340-364 | the summary is the whole join if that fits in 16000 characters, else its last 15999 or 16000 |
| `SummaryText.SummaryExists` | trpc_service/job_worker.py:340-364 | every non-empty list of events has a summary |
| `Projections.ProjectionsAgreeWithLog` | trpc_service/job_worker.py:144-172 | in every history of commits and of ranges handled in any order with any duplicates, each Summary is the projection of the log prefix at the greatest handled version, and memories are one per handled eligible range |
| `Projections.ProjectionNeverRefused` | trpc_service/job_worker.py:256-258 | projecting a committed range never fails, in particular never for an incomplete source |
| `Projections.ProjectionsConfluent` | trpc_service/job_worker.py:261-321 | two histories with the same log and the same handled ranges end with the same views |
| `Projections.SourceEventsStable` | trpc_service/job_worker.py:227-239 | what has been committed of a session reads the same in every later state |
| `Projections.SourceComplete` | trpc_service/job_worker.py:62-81 | both reads of a committed range find every event |
| `Projections.MemoryKeysDistinct` | trpc_service/job_worker.py:287-321 | different committed ranges never share a memory key |
| `ProjectionStore.JobWorker.ReadEvents` | trpc_service/job_worker.py:227-239 | reads the stored events of a sequence range in order |
| `ProjectionStore.JobWorker.ReadExecution` | trpc_service/job_worker.py:241-254 | finds the execution row by id and session, if there is one |
| `ProjectionStore.JobWorker.StoreSummary` | trpc_service/job_worker.py:261-285 | a summary is stored unless one of the same or a newer version is there |
| `ProjectionStore.JobWorker.StoreMemory` | trpc_service/job_worker.py:287-321 | a memory is inserted and announced at most once |
| `ProjectionStore.JobWorker.HandleCommitted` | trpc_service/job_worker.py:144-172 | the projection transaction is `Handle`, and rolls the summary back on error |
| `StorageAdapter.ContentByKey` | trpc_service/storage.py:163-168 | two stores hold the same for a tenant exactly when every key looks up the same |
| `StorageAdapter.Adapter.PutObject` | trpc_service/storage.py:144-147 | stores the value and appends it to the change feed under the next watermark |
| `StorageAdapter.Adapter.EraseTenant` | trpc_service/storage.py:152-158 | removes exactly the tenant's keys and records one deletion for each under one watermark |
| `MigrationData.SnapshotCopiesExactlyWhen` | trpc_service/storage.py:163-168 | copying a tenant's snapshot reproduces the store exactly when the target held no other key of the tenant |
| `StorageAdapter.Adapter.ReadChangesSince` | trpc_service/storage.py:170-177 | returns the tenant's later changes in feed order |
| `StorageAdapter.Adapter.ApplyChanges` | trpc_service/storage.py:179-184 | writes and deletes in order, past the change feed |
| `MigrationData.ReplayLookup` | trpc_service/storage.py:170-184 | replaying a feed is last-writer-wins key by key and leaves other tenants alone |
| `MigrationData.MigrationConverges` | trpc_service/storage_migration.py:192-229 | however source writes and erasures interleave with backfills and catch-ups from old or new checkpoints, a synced target holds exactly what the source held at the last catch-up watermark, and other tenants are untouched |
| `MigrationData.CleanBackfillStaysSynced` | trpc_service/storage_migration.py:192-207 | after a backfill that met no stale keys the target stays synced until the next backfill |
| `MigrationData.CatchUpReachesSource` | trpc_service/storage_migration.py:209-229 | at the end of a catch-up from any recorded checkpoint, target and source are equal for the tenant |
| `MigrationData.StaleKeysDecide` | trpc_service/storage_migration.py:203-206 | target and source agree if and only if the feed has since touched every key the target had and the snapshot did not |
| `MigrationData.RepeatedBackfillKeepsErasedKeys` | trpc_service/storage_migration.py:192-207 | a backfill repeated after an erasure never reaches the source |
| `MigrationData.LateWritesAreLost` | trpc_service/storage_migration.py:127-142 | equality at the watermark lasts to the switch if and only if no later write changed a key |
| `MigrationExecutor.BackfillAll` | trpc_service/storage_migration.py:192-207 | pair by pair, adapters shared between pairs included, each target is overwritten with what its source then holds; the sources' watermarks are returned; an empty list is refused |
| `MigrationExecutor.BackfillCopiesEachPair` | trpc_service/storage_migration.py:203-206 | with distinct adapters every target is overwritten with its own source's snapshot and no source changes |
| `MigrationExecutor.CatchUpAll` | trpc_service/storage_migration.py:209-229 | pair by pair each source's feed since its checkpoint is replayed onto the target; a checkpoint of another length is refused and nothing changes |
| `MigrationExecutor.CatchUpReplaysEachPair` | trpc_service/storage_migration.py:224-228 | with distinct adapters every target gets its own source's feed and no source changes |
| `Fingerprint.EncodeInjective` | trpc_service/storage.py:186-194 | without NUL bytes the delimited encoding determines the entries |
| `Fingerprint.ItemsUnique` | trpc_service/storage.py:186-194 | a content has one sorted list of entries |
| `Fingerprint.SortedItems` | trpc_service/storage.py:186-194 | sorts a tenant's content by key, each entry once |
| `Fingerprint.TenantFingerprint` | trpc_service/storage.py:186-194 | count, digest and watermark are those of the content |
| `MigrationEvidence.MeasurePair` | trpc_service/storage_migration.py:249-264 | measures one pair of adapters: both prints and the recall |
| `MigrationEvidence.ValidateAll` | trpc_service/storage_migration.py:231-279 | the evidence is folded from every pair's contents and watermarks, or an empty list of pairs is refused |
| `MigrationEvidence.ValidationSound` | trpc_service/storage_migration.py:68-74 | accepted evidence over NUL-free contents means equal content on every pair, or the encodings of one pair, or the joined digests of all, share a digest |
| `MigrationEvidence.ValidationComplete` | trpc_service/storage_migration.py:68-74 | equal content on every pair is always accepted |
| `MigrationEvidence.NulBytesDefeatValidation` | trpc_service/storage.py:189-193 | a family of pairs of different contents with NUL bytes passes every check, whatever the hash |
| `MigrationEvidence.NulBytesExample` | trpc_service/storage.py:189-193 | for every hash, two contents of forty entries that differ and are accepted as equal |
| `MigrationEvidence.EvidenceExists` | trpc_service/storage_migration.py:249-279 | any two lists of snapshots of one length have evidence |
| `MigrationControl.StateMachine.AdvanceBy` | trpc_service/storage_migration.py:148-171 | moves along the transition table or reports the error and stays, as `Advance` says |
| `MigrationControl.RunKeepsInv` | trpc_service/admin_api/storage_migrations.py:81-455 | every reachable control plane has at most one active profile, one open migration, and sound rows |
| `MigrationControl.PhasesMoveForward` | trpc_service/storage_migration.py:80-112 | along a run the phase rank of a migration strictly increases with every change of phase, and its parties never change |
| `MigrationControl.ExactlyOneActive` | trpc_service/admin_api/storage_migrations.py:315-345 | once a migration was requested exactly one profile is active, the one its phase names |
| `MigrationControl.WorkWasApproved` | trpc_service/admin_api/storage_migrations.py:194-455 | forward and rollback work had the approval of someone other than the requester |
| `MigrationControl.CompletionWasObserved` | trpc_service/admin_api/storage_migrations.py:302-325 | completion comes no sooner than the observation window after the switch, and after accepted evidence |
| `MigrationControl.ResolverAgreesExactlyWhen` | trpc_service/storage.py:294-307 | the routing query returns the state machine's write profile if and only if that is none or no earlier attempt at the active profile failed or was rolled back |
| `MigrationControl.ResolverAgreesForOneMigration` | trpc_service/storage_migration.py:127-142 | in every run with one migration the query returns exactly the state machine's write profile, none during a rollback |
| `MigrationControl.RetriedTargetIsUnroutable` | trpc_service/storage.py:294-307 | after a dead attempt, a new approved migration to the same profile succeeds up to the switch and leaves no routable profile |
| `MigrationControl.DeniedRequestLeavesDeadAttempt` | trpc_service/admin_api/storage_migrations.py:194-228 | a denied request is such a dead attempt |
| `MigrationStore.Ask` | trpc_service/admin_api/storage_migrations.py:48-54 | the machine rebuilt from a row answers as `Advance` says |
| `MigrationStore.Tables.RequestMigration` | trpc_service/admin_api/storage_migrations.py:81-133 | the request is refused or inserts a PREPARED row, as `Request` says |
| `MigrationStore.Tables.DecideApproval` | trpc_service/admin_api/storage_migrations.py:194-231 | four-eyes approval or denial of a pending request |
| `MigrationStore.Tables.StartMigration` | trpc_service/admin_api/storage_migrations.py:250-278 | an approved PREPARED migration starts its backfill |
| `MigrationStore.Tables.SwitchProfiles` | trpc_service/admin_api/storage_migrations.py:298-355 | the switch moves the active flag and opens the observation window together or not at all, as `SwitchMigration` says |
| `MigrationStore.Tables.CompleteMigration` | trpc_service/admin_api/storage_migrations.py:298-355 | completion is refused until the window is over |
| `MigrationStore.Tables.RequestRollbackApproval` | trpc_service/admin_api/storage_migrations.py:374-392 | a rollback is requested once, during observation |
| `MigrationStore.Tables.DecideRollbackApproval` | trpc_service/admin_api/storage_migrations.py:374-418 | a rollback is decided once, by someone else |
| `MigrationStore.Tables.StartRollbackOf` | trpc_service/admin_api/storage_migrations.py:442-469 | an approved rollback fences both profiles |
| `MigrationStore.Tables.ExecutePhase` | trpc_service/storage_migration_worker.py:45-149 | one data-plane phase: advance, fail, or stay fenced, with the active flag moved back when a rollback ends |
| `MigrationStore.Tables.RunOnce` | trpc_service/storage_migration_worker.py:28-43 | works exactly when a migration waits for the data plane; from a sound control plane it is never refused and leaves a sound one |
| `MigrationControl.MoveActiveWorks` | trpc_service/admin_api/storage_migrations.py:323-336 | clearing the old flag before setting the new one never meets the one-active index |
| `MigrationStore.WorkSucceeds` | trpc_service/storage_migration_worker.py:45-149 | in a sound control plane no phase of the worker is refused by the database |
| `MigrationStore.Tables.ResolveProfile` | trpc_service/storage.py:294-307 | the routing query is `Resolve` |
| `MigrationSite.RunKeepsInv` | trpc_service/storage_migration_worker.py:45-149 | with both planes together the control plane stays sound and the worker writes past the change feeds, in every run |
| `MigrationSite.PollOutcome` | trpc_service/storage_migration_worker.py:28-149 | a poll does its phase's work on the stores and advances, or changes no store and fails or stays fenced |
| `MigrationEndToEnd.SwitchIsSound` | trpc_service/storage_migration_worker.py:80-96 | in every run, if evidence was accepted and nothing but the worker wrote since, the new profile holds exactly the old one's data when it can be switched, or two of the strings hashed for these stores collide |
| `MigrationEndToEnd.CopyAcceptedExactlyWhen` | trpc_service/storage_migration.py:231-279 | a copied profile is accepted against its source if and only if it held no other key of the tenant, whatever the hash |
| `MigrationEndToEnd.StaleRollbackNeverEnds` | trpc_service/storage_migration_worker.py:97-149 | in every run, a rollback that begins while the old profile holds a key the new one lost stays fenced and unroutable in every continuation whose writes go where the resolver sends them |
| `MigrationEndToEnd.FencedIsUnroutable` | trpc_service/storage.py:294-307 | while a migration is fenced the resolver names no profile, so no routed write can happen |
| `MigrationEndToEnd.RollbackEndsExactlyWhen` | trpc_service/storage_migration_worker.py:97-149 | in every run, a rollback that has begun can end in some routed continuation if and only if the profiles' adapters pair up and the old ones hold no key that the new ones lack |
| `MigrationEndToEnd.CleanRollbackEnds` | trpc_service/storage_migration_worker.py:97-149 | without such a key three polls end the rollback and both profiles hold the same data |
| `MigrationEndToEnd.ErasureStrandsRollback` | trpc_service/storage_migration_worker.py:219-233 | in every run, erasing the tenant on the new profile and then starting an approved rollback strands the tenant in every routed continuation |
| `MigrationExamples.SwitchIsReached` | trpc_service/storage_migration_worker.py:45-96 | from any two paired profiles, the new one without keys of its own, the run of request, approval, start and three polls is accepted and ready to switch, with the old data copied |
| `MigrationExamples.PlatformMeetsSoundness` | trpc_service/storage_migration_worker.py:80-96 | a concrete run that meets the hypotheses of switch soundness, for every hash |
| `MigrationExamples.ErasureStrandsPlatform` | trpc_service/storage_migration_worker.py:97-149 | a concrete run, for every hash, through the switch and an approved rollback to an erasure on the routed profile, after which the tenant has no profile in any routed continuation |
| `BudgetTheorems.LedgerConserved` | trpc_service/budgets.py:268-335 | in every reachable state consumed is the sum of SETTLE entries, the contingency counter the sum of draws, and reserved the sum of open RESERVE entries less exactly the contingency draws that were settled or released |
| `BudgetTheorems.ReservedIsOpenExactlyWhen` | trpc_service/budgets.py:293-335 | reserved equals the open reservations if and only if no positive contingency draw was settled or released |
| `BudgetExamples.ContingencySettlementUnbalances` | trpc_service/budgets.py:529-591 | a concrete run in which a settled contingency draw hides an open reservation |
| `BudgetExamples.LoneDrawCannotSettle` | trpc_service/budgets.py:293-304 | a concrete run in which a successful call's contingency draw can never be settled |
| `BudgetExamples.ZeroLimitAborts` | trpc_service/budgets.py:474-488 | a concrete run in which a request that the allowance covers fails closed because the budget's own limit is zero |
| `BudgetOrphans.OrphansAreTheLeaks` | trpc_service/budgets.py:212-266 | in every run the open reservations in no call's bundle are exactly those that one of its transactions made and did not hand out |
| `BudgetOrphans.RunLeaksExactlyWhen` | trpc_service/budgets.py:212-266 | in every run a transaction leaves such reservations if and only if a guard on the state before it holds |
| `BudgetOrphans.OrphanedExactlyWhen` | trpc_service/budgets.py:212-266 | a run ends with a reservation that no call owns if and only if the guard of one of its transactions held |
| `BudgetOrphans.BeginLeaksExactlyWhen` | trpc_service/budgets.py:212-262 | a reserve transaction leaves some if and only if it has a level, every level has room, no alert aborts it, and it raised after its commit |
| `BudgetOrphans.RecoveryLeaksExactlyWhen` | trpc_service/budgets.py:529-591 | a recovery leaves some if and only if it is not rolled back, its first contingent level pays, and it raised after its commit or another contingent level cannot pay |
| `BudgetOrphans.OrphansStayOpen` | trpc_service/budgets.py:258-262 | what no call owns at some moment of a run is still open and unowned at its end |
| `BudgetExamples.RaisedCommitLeaks` | trpc_service/budgets.py:258-262 | a concrete run in which a committed reservation reaches no call because the database raised |
| `BudgetExamples.StoppedRecoveryLeaks` | trpc_service/budgets.py:564-565 | a concrete run in which a recovery draws on one budget, stops at the next and commits the draw for no call |
| `BudgetTheorems.ReplayChangesNothing` | trpc_service/budgets.py:268-335 | a settlement or release that went through changes nothing when replayed |
| `BudgetTheorems.SettlementRefusedExactlyWhen` | trpc_service/budgets.py:268-335 | in every run a call's settlement or release is refused if and only if one of its entries is not yet closed that way and asks for more than its period's reserved counter holds |
| `BudgetTheorems.SettlementGoesThrough` | trpc_service/llm_gateway.py:375-408 | while no contingency was drawn, the settlement or release a call is due never violates a counter's constraint |
| `BudgetTheorems.NeverOverdrawn` | trpc_service/budgets.py:429-501 | with default settlement and limits and allowances that never shrink, reserved plus consumed never exceeds limit plus allowance in any run |
| `BudgetRuns.RunKeepsInv` | trpc_service/llm_gateway.py:375-408 | in every run of calls the books are sound and each call's entries are closed only the way its fate allows |
| `BudgetRuns.ReserveFresh` | trpc_service/budgets.py:212-256 | however the reserve transaction ends, it only adds entries under new identifiers, keeps the books sound, and hands out open, recorded entries |
| `BudgetRuns.RecoveryFresh` | trpc_service/budgets.py:529-591 | the same of the recovery transaction, which looks the levels up again |
| `BudgetLedger.CloseKeeps` | trpc_service/budgets.py:268-335 | settling or releasing, first time or replayed, keeps counters and ledger in agreement |
| `BudgetLedger.SecondClosingUnbalances` | trpc_service/budgets.py:605-642 | closing a reservation a second way keeps the agreement if and only if its amount is zero |
| `BudgetReserve.ReserveAllOrNothing` | trpc_service/budgets.py:212-266 | a request is granted if and only if every applicable level has room; a refusal changes no counter and adds matched RESERVE and RELEASE entries for the levels before the first exhausted one and one REJECT for it |
| `BudgetReserve.BreaksExactlyWhen` | trpc_service/budgets.py:469-490 | the alert constraint aborts a reservation if and only if a level with limit zero is reached and would raise an alert |
| `BudgetReserve.AlertsReportedOnce` | trpc_service/budgets.py:474-490 | a granted reservation reports exactly the alerts whose rows it inserted, each of them for the first time |
| `BudgetReserve.DecisionEscalates` | trpc_service/budgets.py:100-118 | more usage never lowers the decision, landing on the limit is admitted and passing it is refused |
| `BudgetReserve.LevelsComeFromBudgets` | trpc_service/budgets.py:393-427 | every level is a budget of the tenant, and distinct budgets give distinct periods |
| `BudgetStore.Levels` | trpc_service/budgets.py:393-427 | the loop returns the applicable levels in order, or fails closed for an execution budget without an execution |
| `BudgetStore.Service.ReserveLevel` | trpc_service/budgets.py:429-501 | holds one level exactly when it fits, and reports an alert the first time |
| `BudgetStore.Service.CompensateAll` | trpc_service/budgets.py:503-527 | every secured level is compensated in turn |
| `BudgetStore.Service.ApplyUnknownPolicy` | trpc_service/budgets.py:529-591 | draws on every contingent level or stops at the first that cannot pay, keeping earlier draws |
| `BudgetStore.Service.ReserveTransaction` | trpc_service/budgets.py:212-257 | the reserve transaction as the database ends it: done, rolled back, or committed with an error |
| `BudgetStore.Service.RecoverTransaction` | trpc_service/budgets.py:529-591 | the recovery transaction with its own look-up of the levels, ended in the same three ways |
| `BudgetStore.Service.ReserveBudget` | trpc_service/budgets.py:212-266 | the two transactions in turn are `Reserve`, the recovery only after the first raised |
| `BudgetStore.Service.CloseBundle` | trpc_service/budgets.py:268-335 | settling or releasing a bundle is all or nothing, as `CloseAll` says |
| `BudgetStore.Service.AdjustAllowance` | trpc_service/budgets.py:337-391 | raises or lowers the allowance of the current period, never of an execution budget |
| `BudgetStore.Service.AppendLedger` | trpc_service/budgets.py:605-642 | inserts unless the same key, identifier and kind are there |
| `AuditChain.VerifyChain` | trpc_service/audit_chain/chain.py:134-173 | valid if and only if every row's stored hashes fit, with the recomputed head; otherwise the first row that does not fit |
| `AuditChain.SameHeadSameEvents` | trpc_service/audit_chain/chain.py:78-79 | two chains with one head have the same events, or walking back names a collision or a preimage of the genesis hash |
| `AuditChain.TamperEvident` | trpc_service/audit_chain/chain.py:134-173 | rows that verify to a known head are the original rows, one by one, or a broken hash is named |
| `AuditChain.PrefixStillLinked` | trpc_service/audit_chain/chain.py:134-173 | every prefix of a verifying chain verifies |
| `AuditChain.TruncationShows` | trpc_service/audit_chain/chain.py:173 | a proper prefix does not reach the same head, or a broken hash is named |
| `AuditManifest.RunKeepsInv` | trpc_service/audit_chain/manifest.py:79-154 | every trail of appends and seals is chained, tiled and signed |
| `AuditManifest.AppendedChainVerifies` | trpc_service/audit_chain/chain.py:87-131 | every chain built by appends verifies with the stored head |
| `AuditManifest.ManifestsTile` | trpc_service/audit_chain/manifest.py:79-154 | manifests are contiguous from index 1 and disjoint, counts match, and each head is the next event's stored previous hash or the chain head |
| `AuditManifest.ManifestPinsEvents` | trpc_service/audit_chain/manifest.py:97-121 | rows that verify to a manifest's head are the sealed events, or a broken hash is named |
| `AuditManifest.ArchiveKeepsTilingExactlyWhen` | trpc_service/audit_chain/manifest.py:79-142 | archiving a segment read earlier under the next free index keeps the tiling if and only if no other sealer archived in between |
| `AuditManifest.InterleavedSealing` | trpc_service/audit_chain/manifest.py:83-142 | with the rows, the index and the insert at three moments: the insert is refused if and only if another sealer archived after the index was read, and otherwise keeps the tiling if and only if none did between the two reads |
| `AuditManifest.OverlapArchivesTwice` | trpc_service/audit_chain/manifest.py:83-142 | one event and two overlapping sealers: the second insert goes through, both manifests start at the same row, and the tiling is lost |
| `AuditManifest.AuditTrail.AppendToChain` | trpc_service/audit_chain/chain.py:87-131 | advances the head and stores the event with its hash and the head it extends |
| `AuditManifest.AuditTrail.BuildAndArchive` | trpc_service/audit_chain/manifest.py:79-154 | seals exactly what is not archived, or nothing |
| `AuditManifest.VerifyEvidence` | trpc_service/audit_chain/manifest.py:156-187 | tampering is reported if and only if the chain does not recompute or a signature does not match |
| `FallbackSearch.CandidateProfiles` | trpc_service/llm_gateway.py:522-545 | on any graph the search ends with exactly the usable profiles reachable over authorised edges, each once, in non-decreasing hop distance |
| `FallbackSearch.Authorised` | trpc_service/llm_gateway.py:540-544 | keeps exactly the fallbacks the release allows, in order and as often as they occur |
| `FallbackSearch.LastSnapshotWins` | trpc_service/llm_gateway.py:526 | an alias maps to its last snapshot, and to nothing without one |
| `RateLimiter.WindowsStayWithinLimit` | trpc_service/llm_gateway.py:601-609 | no sixty-second window, wherever it lies, holds more admissions than the limit |
| `RateLimiter.Limiter.WithinRateLimit` | trpc_service/llm_gateway.py:601-609 | admits exactly while fewer than the limit lie in the last window; the deque is the admission history less what expired, and other profiles are untouched |
| `RateLimiter.Prune` | trpc_service/llm_gateway.py:604-605 | popping expired heads leaves exactly the recent admissions |
| `KafkaConsumer.AtLeastOnce` | trpc_service/execution_bus.py:371-430 | in every run without a cancelled burial a committed offset never passes a record that was neither handled nor dead-lettered |
| `KafkaConsumer.PollKeepsInvExactlyWhen` | trpc_service/execution_bus.py:380-411 | a poll keeps that guarantee if and only if it is not cancelled while dead-lettering an unfinished record |
| `KafkaConsumer.CancelledBurialLosesRecord` | trpc_service/execution_bus.py:393-403 | after such a cancellation, handling the next record commits past the lost one |
| `KafkaConsumer.CancelledBurialIsReachable` | trpc_service/execution_bus.py:393-403 | such a state is reachable |
| `KafkaConsumer.FailuresAreBounded` | trpc_service/execution_bus.py:386-418 | with a working dead-letter topic a record's failures per process are below the maximum before its first burial and the maximum less one plus its burials from then on, at most the maximum plus the lost commits |
| `KafkaConsumer.ExceedsExactlyWhen` | trpc_service/execution_bus.py:386-418 | a record fails more often than the maximum if and only if a burial's commit was lost and a later delivery failed again |
| `KafkaConsumer.RefailTakesRebalance` | trpc_service/execution_bus.py:371-425 | between that lost commit and that failure lies a rebalance |
| `KafkaConsumer.NoRebalanceNoExcess` | trpc_service/execution_bus.py:386-418 | without a rebalance no record fails more often than the maximum |
| `KafkaConsumer.FailuresUnbounded` | trpc_service/execution_bus.py:404-405 | for every k, a run with all dead letters published in which one record fails k times in one process |
| `KafkaConsumer.Consumer.Process` | trpc_service/execution_bus.py:371-425 | one poll, with its seeks, attempts and commits, is `ProcessOnce` |
| `ReplySplit.SplitReplyText` | trpc_service/channels/adaptive_reply.py:38-63 | the loop ends and returns the pieces `SplitReply` specifies |
| `ReplySplit.SplitReplyKeepsText` | trpc_service/channels/adaptive_reply.py:38-63 | at least one piece, every piece non-empty and within the limit, and the non-whitespace characters kept in order |
| `ReplySplit.MarkdownBoundary` | trpc_service/channels/adaptive_reply.py:66-85 | finds the last balanced break within the limit, the limit if balanced, or zero |
| `ReplySplit.BoundaryIs` | trpc_service/channels/adaptive_reply.py:66-85 | the boundary is the greatest candidate, and the text before it is balanced |
| `ReplySplit.MarkdownState` | trpc_service/channels/adaptive_reply.py:88-99 | counts non-overlapping fences modulo two and open brackets |
| `ReplyBalance.FencesAcross` | trpc_service/channels/adaptive_reply.py:88-99 | over any cut the fences are those of both sides, and one more if the left-over backticks on both sides make one |
| `ReplyBalance.BalancedExactlyWhen` | trpc_service/channels/adaptive_reply.py:38-99 | for every text and limit, all pieces are balanced if and only if the hard limit was never forced, no bracket stays open, and the fences together with the split ones are even in number |
| `ReplyBalance.BalancedTextExactlyWhen` | trpc_service/channels/adaptive_reply.py:38-99 | balanced text stays balanced if and only if no cut is forced and an even number of fences is split |
| `ReplyBalance.SplitFenceExample` | trpc_service/channels/adaptive_reply.py:82-84 | a text of nine characters at a limit of three: balanced, never forced, and its last piece a bare fence |
| `ReplyBalance.PieceBalancedExactlyWhen` | trpc_service/channels/adaptive_reply.py:54-60 | one piece is balanced if and only if its cut was not forced |
| `ReplyBalance.WordCutsKeepBalance` | trpc_service/channels/adaptive_reply.py:38-99 | balanced text cut only at spaces and newlines with non-blank pieces gives balanced pieces, the last included |
| `ReplyBalance.LongLinkIsBisected` | trpc_service/channels/adaptive_reply.py:66-85 | a text that opens with a link longer than the limit is always bisected |

## Left out

- Tenants: the model is one tenant's slice; every key in the source starts with the tenant id and row-level security enforces it. `StorageAdapter` and `MigrationData` do carry several tenants, because erasure and replay filter by tenant there.
- Transactions are atomic steps; row locks and isolation anomalies inside one are not modelled, except that `AuditManifest` separates a sealer's two reads from its insert.
- Fresh UUIDs are unique and differ from client message ids; clocks are inputs and lease expiry is a comparison.
- `platform.try_admit_execution` (agent_gateway.py:207-216): its SQL body is not part of this model; admission is an arbitrary allow or deny.
- The foreign-key error of acquiring a lease on a session that does not exist is reported as a missing session.
- JSON payloads: an event is a role with optional text; canonical JSON, timestamps in it and HMAC internals are parameters.
- Memory rows carry the fields the projection decides; their generated ids and the Outbox envelope of an invalidation notice do not.
- Route, release, deployment and knowledge resolution, DLP and secret scanning, the provider call, the circuit breaker and telemetry.
- SummaryText.SelectFragments: puts each kept fragment in front in place of appending and reversing at the end.
- MigrationEvidence.ValidateAll: takes the adapters' tenant contents and watermarks by value, since they are only read; the source's float recall is a real number.
- MigrationEndToEnd: the rollback theorems exclude a write that was routed before the fence and lands after it; the site's steps themselves allow a write to any profile at any time. Switch soundness assumes that nothing is written between acceptance and switch, since the old profile is routable then.
- MigrationSite: an executor error leaves the stores alone; a copy or replay that stops half way is not modelled.
- MigrationControl: profile contents, resource claims and the audit rows beside each transition; a request with an observation window outside 60 to 86400 seconds is refused by schema validation and the table's check together.
- Budgets: `evaluate_level` compares by integer cross-multiplication in place of floating-point ratios; prices, token estimates and the ledger's descriptive columns are left out; amounts are non-negative, as the ledger's check demands.
- Budget idempotency keys of the admin endpoints, budget listing and price tables.
- AuditManifest.AuditTrail.BuildAndArchive: the WORM upload and its retention are left out.
- FallbackSearch.CandidateProfiles: the profile database is a fixed function for the length of one search.
- RateLimiter.Limiter.WithinRateLimit: time is a real number, with no floating-point rounding.
- KafkaConsumer: one partition; failure counters carry topic and partition, so partitions do not interact. Failures are counted within one process, since the counters are in memory.
- ReplySplit.SplitReplyText: requires a limit of at least one, as the channel capabilities schema does.
- Retention, memory correction and content deletion, which rewrite payloads, the Outbox dispatcher, backpressure, failover, sandbox, web console, admin CRUD and pagination.
