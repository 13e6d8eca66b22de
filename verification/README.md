# Verified model of ecommerce-commons

A Dafny model of the protocols and state machines in this Go library, with proofs of what they are for: the
transactional outbox, the Kafka consumer pipeline, the versioned repository, the tenant registry, the readiness
latch, the retrying HTTP transport, header propagation, and the naming of configuration keys.

`dafny verify dfyconfig.toml` checks everything.

## How it is organised

| files | models |
|---|---|
| `OutboxStore.dfy` | the `outbox` collection and the class `OutboxRepository` with its atomic commands |
| `OutboxProtocol.dfy`, `OutboxTheorems.dfy` | any number of service processes around that collection as a step system, its invariant, and what holds over every run |
| `OutboxHeaders.dfy`, `OutboxProgress.dfy` | which headers a record carries when its map is shared; how a queued message gets to be SENT |
| `OutboxNode.dfy`, `ConfirmerSpec.dfy`, `Confirmer.dfy` | one process in the shape of the code, and the Confirmer loop with its reused buffer |
| `ConsumerPipeline.dfy`, `Consumer.dfy`, `MessageRetry.dfy` | Reader, deserializer, Processor and ResultHandler: steps, invariant, runs; the class; the retry loop |
| `VersionedRepository.dfy`, `Paging.dfy` | optimistic locking, out-of-order upserts, pagination |
| `TenantRegistry.dfy`, `TenantServices.dfy` | the registry's laws and runs; repository, syncer, lifecycle and cleanup worker as classes |
| `ReadinessLatch.dfy`, `Readiness.dfy` | the latch, traffic confirmation and gated workers as interleaved steps; the classes |
| `HttpRetry.dfy` | the retry loop of the HTTP transport |
| `HeaderPropagation.dfy` | header maps, header lists and the tenant slug from outbox to DLQ |
| `EnvKeys.dfy` | environment variable names as configuration keys |
| `Wrappers.dfy`, `Sorting.dfy` | shared types; sorted sequences of a multiset |

Where the code runs concurrently, a `Step` datatype lists everything that can happen (including crashes, drops,
failed writes, cancellation and the passing of time), `Enabled` and `Next` give its effect, and a run is a sequence
of worlds joined by steps. Theorems about runs hold for every interleaving. Where the code updates things in place,
a class has the same fields, and each method's contract equates the new state with the step or function that the
theorems are about.

### Assumptions

- One database command on one document is atomic, and the clock read next to it shows the time at which it acts.
- Entity ids are UUIDs: an id is created once.
- A database command may also report an error, before or after it took effect; of an update of several documents any
  part may have taken effect.
- Each produce promise fires at most once; a crash loses the promises of its process.
- Within a partition, records not seen before arrive in increasing offset order. After a rebalance, records already
  read may be delivered again. `MarkCommitRecords` keeps the highest offset of each assigned partition.
- `backoff.Retry` stops on success, on a permanent error, when the context is done, and after the configured retries.
- `_id` is unique; an upsert that matches nothing inserts.
- Mappers obey the laws of `VersionedRepository.Lawful`; clients change neither id nor version of what they read.
- Trace propagators write only their own header keys, and `event_id` and `x-tenant-slug` are none of them.
- A header map is used by one goroutine at a time, and once Create has written it its caller changes neither of these two.

### Where the code does not do what one might expect

- **Huge page numbers.** `(Page-1)*Size` wraps at 64 bits. `Paging.QueryExact`: the query answers with the meant
  page for every collection if and only if the product fits; beyond that it fails or returns rows that are not on
  that page.
- **Shared header maps.** `Create` writes into the map its caller passed and the entity keeps that map; the fast path
  reads it only when the record is produced. `OutboxHeaders.FastPathExact`: the record carries its own event id if and
  only if no other `Create`, successful or not, was given the map in between, and its own tenant if and only if the last
  of them that wrote a tenant wrote the same. `OutboxHeaders.OneMapForTwo`: with one map for two messages of a
  transaction, the first is produced with the event id and the tenant of the second, and becomes SENT. A caller that
  passes nil or a map of its own for every message is safe; what comes through the fetcher always is
  (`OutboxHeaders.FetchedIsFaithful`).
- **Ties in the sort order.** `Paging.PartitionExact`: pages of a given size partition the result, however the separate
  queries order ties, if and only if different documents tie only within a page; for every size at once, if and only if
  none tie (`Paging.PartitionForEverySize`). A sort that ends with a unique key never ties
  (`Paging.UniqueKeyHasNoTies`). Otherwise one document is shown once too often and another once too little
  (`Paging.TiesBreakPages`).
- **Duplicate tenant headers.** The consumer takes the first slug header of a record, its DLQ copy keeps the last.
  `HeaderPropagation.DlqSlugExact`: the tenant is the same if and only if these two agree.
- **Names with `.`, `-` or NUL.** `EnvKeys.RoundTripExact`: a name can be read back from its key if and only if it
  has none of them.
- **Shutdown order.** Commit safety needs the processor to have stopped before the reader or the deserializer is
  cancelled, as the reverse hook order arranges. `ConsumerPipeline.WrongStopOrderIsUnsafe` reaches a lost record
  without it.
- **Expired connections are not counted.** `HttpRetry.TerminatesExactly`: a round trip ends if and only if some reply
  is conclusive or more than `maxRetries` replies are not expiries. `HttpRetry.SomeRoundTripNeverEnds` gives a transport
  on which it loops; `HttpRetry.EndsWhenConnectionsRecover` a condition on the transport under which it never does.
- **Stale upserts.** The comment on `UpsertIfNewer` promises `false` for a stale entity. With a unique `_id` the attempted
  insert is a duplicate key, so the caller gets an error exactly then, and `false` without an error is never returned
  (`VersionedRepository.GenericRepository.UpsertIfNewer`).
- **Conflicting upserts.** `VersionedRepository.ConvergenceExact`: the order of delivery does not matter if and only if
  no two different upserts compete for being the newest of their id. A conflict at a version that another upsert
  exceeds, or with the version stored at the start, never shows.
- **The grace period of a Sync.** The deadline is computed before the first marking, `modified_at` at each of them.
  `TenantRegistry.GraceExact`: a marked tenant stays five minutes, less the time between reading the clock and its own
  write, and no longer; `TenantRegistry.SlowSyncSkipsGrace` reaches a tenant that is removed in the millisecond in which
  it was still active.
- **Stale Syncs.** A Sync still writes what it read before. `TenantRegistry.StaleSyncReactivates`: a tenant whose deletion
  was requested meanwhile becomes active again; `TenantRegistry.ReactivatedBy`: a tenant nobody asks for becomes active
  in no other way than by a write that some call in progress had still to make.

## Model

| member | source | states |
|---|---|---|
| OutboxStore.OutboxRepository.FetchAndLock | pkg/kafka/outbox/repository.go:38-88 | not found exactly when no document is eligible; otherwise leases the eligible document whose next attempt was due first, the oldest of those, for 30 s; counter and next attempt change with the lease, nothing else does; a failed command may have leased one |
| OutboxStore.OutboxRepository.Create | pkg/kafka/outbox/repository.go:90-109 | inserts an unsent entity leased for 10 s; an existing id is an error and changes nothing; another error may hide an insert |
| OutboxStore.OutboxRepository.UpdateAsSentByIDs | pkg/kafka/outbox/repository.go:111-129 | confirms every listed document, or a part when it fails: SENT, no deadlines, one more confirmation, all else kept; the others are unchanged |
| OutboxStore.SomeNextExists | pkg/kafka/outbox/repository.go:43-54 | whenever something is eligible there is a first document, so a fetch cannot come back empty |
| OutboxProtocol.StepInv | pkg/kafka/outbox/repository.go:38-129 | every step of every process, crashes, drops, failed updates and expiry included, keeps the invariant: conservation, bounds, truthfulness, deadlines |
| OutboxTheorems.SentWasDelivered | pkg/kafka/outbox/confirmer.go:78-96 | a SENT entity was taken from a channel and produced with the body it was created with, and Kafka's callback for that record reported no error |
| OutboxTheorems.SentStaysSent | pkg/kafka/outbox/repository.go:48-54 | SENT is absorbing: never PROCESSING again, never fetched again, until it expires |
| OutboxTheorems.QueuedAsCreated | pkg/kafka/outbox/sender.go:55-64 | whatever is queued has the body of its Create, by either path, and by the fetcher's also its headers |
| OutboxHeaders.FetchedIsFaithful | pkg/kafka/outbox/fetcher.go:33-56 | by way of the fetcher a record carries exactly the content its Create inserted |
| OutboxHeaders.FastPathExact | pkg/kafka/outbox/outbox.go:51-89 | by the fast path a record has its own event id if and only if no other Create was given its map before the Take, its own tenant if and only if the last tenant written is the same, and all its content if the map was left alone |
| OutboxHeaders.CreatedHeaders | pkg/kafka/outbox/outbox.go:56-71 | what a Create inserts has its own event id, the type, source and time of the event, its tenant, and the trace context, key by key |
| OutboxHeaders.TenantExact | pkg/kafka/outbox/trace_propagator.go:63-78 | the consumer, and that of the DLQ copy, finds the creating context's tenant always by way of the fetcher, and by the fast path if and only if the last tenant written into the map is the same |
| OutboxHeaders.OneMapForTwo | pkg/kafka/outbox/outbox.go:57-63 | one map for two messages: the first is produced with the event id and tenant of the second, and becomes SENT |
| OutboxTheorems.PushedIsProduced | pkg/kafka/outbox/sender.go:45-52 | the entities channel is FIFO and loses nothing: a pushed message is produced, in its place, after as many takes as stand before it, unless the process crashes |
| OutboxProgress.CalledIsSent | pkg/kafka/outbox/confirmer.go:36-102 | after an error-free callback an entity is SENT or expired once the results queued by then were received, flushed and handled, unless the process crashes or an update fails |
| OutboxProgress.PushedIsSent | pkg/kafka/outbox/sender.go:45-71 | a message at place k of the channel is SENT or expired after more than k takes, its callbacks without error, as many receives as results were queued, a flush and the handling of its batches |
| OutboxTheorems.ConfirmationsConserved | pkg/kafka/outbox/sender.go:66-70 | what Sender took is in flight or called back, as a multiset; the callbacks' results in order are the flushed batches, the buffer and the channel; all capacities hold |
| OutboxTheorems.AheadStep | pkg/kafka/outbox/repository.go:43-54 | no step moves an eligible entity back in the fetch order; a fetch of another entity moves it up by exactly one |
| OutboxTheorems.NoStarvation | pkg/kafka/outbox/repository.go:41-76 | successful fetches that pass over an eligible entity never outnumber the entities ahead of it |
| OutboxTheorems.NoStranded | pkg/kafka/outbox/repository.go:59-76 | whatever is dropped, an unconfirmed entity is eligible again once max(30 s, 10 s, maxBackoff) has passed |
| OutboxTheorems.EventuallyTouched | pkg/kafka/outbox/repository.go:38-76 | after that time, as many fetches as there are documents cannot all pass over it |
| OutboxTheorems.AttemptsCountFetches | pkg/kafka/outbox/repository.go:62 | attemptsToSend is the number of fetches so far, and createdAt the time of the Create |
| OutboxTheorems.FetchSpacing | pkg/kafka/outbox/repository.go:59-75 | the n-th fetch comes strictly later than the accumulated leases and backoffs after creation |
| OutboxTheorems.LeaseIsExclusive | pkg/kafka/outbox/repository.go:61-71 | two fetches of one entity are more than 30 s, and more than its backoff, apart |
| OutboxTheorems.SpacingClosedForm | pkg/kafka/outbox/repository.go:56-70 | below the cap the accumulated delay is 10 s + 30 s * (2^n - 1) |
| OutboxTheorems.SpacingPastCap | pkg/kafka/outbox/repository.go:66-71 | past the cap every further fetch costs the larger of cap and lease |
| OutboxTheorems.AttemptsBoundedByAge | pkg/kafka/outbox/model.go:24 | the attempt counter is bounded by the age of the document over 30 s |
| OutboxTheorems.DefaultAttemptsWithinTtl | pkg/kafka/outbox/schema.go:19-20 | with the default 10 h backoff a message is fetched at most 22 times in its 5 days |
| OutboxTheorems.LivesFiveDays | pkg/kafka/outbox/schema.go:19-34 | a document is there, with its creation time, for at least five days |
| OutboxNode.OutboxNode.PrepareHeaders | pkg/kafka/outbox/outbox.go:56-63 | the caller's own map is written in place |
| OutboxNode.OutboxNode.InsertEntity | pkg/kafka/outbox/outbox.go:71-78 | stores the headers as they are now and keeps the map for the SendFunc; a stored id or a failed insert is an error |
| OutboxNode.OutboxNode.Create | pkg/kafka/outbox/outbox.go:51-79 | one Create step, or a failed one after which the map stays written |
| OutboxNode.OutboxNode.Send | pkg/kafka/outbox/outbox.go:81-95 | SendFunc pushes the entity or changes nothing |
| OutboxNode.OutboxNode.FetchNext | pkg/kafka/outbox/fetcher.go:33-50 | one Fetch step, or nothing exactly when nothing is eligible; after another error nothing, or a lease given up |
| OutboxNode.OutboxNode.HandOver | pkg/kafka/outbox/fetcher.go:52-56 | the fetched entity goes to the channel, or is dropped on cancellation |
| OutboxNode.OutboxNode.SendNext | pkg/kafka/outbox/sender.go:48-70 | one entity taken is one record in flight, with the headers its map holds now |
| OutboxNode.OutboxNode.Callback | pkg/kafka/outbox/sender.go:68-70 | one promise is one confirmation result |
| OutboxNode.OutboxNode.ReceiveResult | pkg/kafka/outbox/confirmer.go:67-71 | results are appended in order and flushed when there are 100 |
| OutboxNode.OutboxNode.TickOrShutdown | pkg/kafka/outbox/confirmer.go:56-74 | a tick or the cancellation leaves the buffer empty |
| OutboxNode.OutboxNode.HandleBatch | pkg/kafka/outbox/confirmer.go:78-102 | one Handle step; a failed update marks any part of the delivered ids |
| Confirmer.Flush | pkg/kafka/outbox/confirmer.go:41-50 | a non-empty buffer is copied to a fresh array; an empty one flushes nothing |
| Confirmer.Run | pkg/kafka/outbox/confirmer.go:36-76 | at return the flushed arrays hold the stream cut at the ticks and into chunks of 100, with nothing left buffered, although the buffer was reused |
| Confirmer.BatchesAreIntended | pkg/kafka/outbox/confirmer.go:55-74 | counting to 100 in one buffer equals cutting at ticks and chunking each piece |
| Confirmer.IntendedConserves | pkg/kafka/outbox/confirmer.go:41-50 | the batches concatenate to the received results, and hold 1 to 100 each |
| Confirmer.TicksCut | pkg/kafka/outbox/confirmer.go:72-74 | a tick flushes what came before it, apart from what comes after |
| Confirmer.FullBetweenTicks | pkg/kafka/outbox/confirmer.go:67-71 | between ticks every batch but the last holds exactly 100 |
| Confirmer.HandleConfirmation | pkg/kafka/outbox/confirmer.go:78-102 | exactly the ids delivered without error become SENT, or a part of them when the update fails |
| MessageRetry.ExecuteWithRetry | pkg/kafka/consumer/processor.go:92-133 | exactly a failure that is neither a skip nor permanent is followed by another call, unless cancelled or after maxRetries + 1 calls; the last call decides, a panic as a permanent error |
| MessageRetry.CallsWithoutCancellation | pkg/kafka/consumer/processor.go:104-132 | without cancellation the handler runs min(k, maxRetries + 1) times |
| Consumer.DispositionExact | pkg/kafka/consumer/processor.go:105-155 | what becomes of a message follows from its handler's first final attempt; panics and exhausted retries go to the DLQ handler |
| ConsumerPipeline.StepInv | pkg/kafka/consumer/deserializer.go:58-88 | every step keeps the line of records closed: whatever is below one of them is settled or ahead of it |
| ConsumerPipeline.CommitsAreSafe | pkg/kafka/consumer/result_handler.go:38-66 | in every reachable state a mark covers only records that were handled, skipped or handed to the DLQ handler, undeserializable ones included |
| ConsumerPipeline.OnlyDropsAreUnsafe | pkg/kafka/consumer/reader.go:70-76 | in whatever order things stop, only records given up on cancellation can be covered undecided; no record is lost track of |
| ConsumerPipeline.DropsFollowTheProcessor | pkg/kafka/consumer/fxconfig/module.go:68-72 | with reverse stop order nothing is given up before the processor has stopped |
| ConsumerPipeline.WrongStopOrderIsUnsafe | pkg/kafka/consumer/reader.go:70-76 | otherwise a reachable state commits past a record nobody disposed of |
| ConsumerPipeline.FinishedStaysCovered | pkg/kafka/consumer/result_handler.go:39 | a finished record stays covered in the whole run while its partition is assigned |
| ConsumerPipeline.FinishesInOffsetOrder | pkg/kafka/consumer/processor.go:62-71 | when a record finishes, every record read below it on its partition is already settled |
| ConsumerPipeline.AcceptedIsSettled | pkg/kafka/consumer/processor.go:62-89 | once more records have finished than stood before it, an accepted record is settled, by FIFO order alone |
| Consumer.Consumer.PollRecords | pkg/kafka/consumer/reader.go:38-50 | one poll fills the batch and is recorded as read |
| Consumer.Consumer.PushRecord | pkg/kafka/consumer/reader.go:70-76 | records enter the channel in poll order, or are given up |
| Consumer.Consumer.Deserialize | pkg/kafka/consumer/deserializer.go:58-81 | a record that does not deserialize goes to the DLQ handler, unmarked |
| Consumer.Consumer.SendEnvelope | pkg/kafka/consumer/deserializer.go:83-87 | envelopes keep their order, or are given up |
| Consumer.Consumer.Handle | pkg/kafka/consumer/result_handler.go:38-66 | exactly one mark whatever the outcome; DLQ exactly for an error that is not a skip |
| Consumer.Consumer.MarkCommitRecords | pkg/kafka/consumer/result_handler.go:39 | the mark of an assigned partition becomes the larger offset, all others stay, and a partition that is not assigned gets none |
| Consumer.Consumer.TakeEnvelope | pkg/kafka/consumer/processor.go:62-71 | one envelope at a time, in channel order, until stopped |
| Consumer.Consumer.ProcessMessage | pkg/kafka/consumer/processor.go:73-89 | retry and disposition together are one Finish step, with one mark |
| VersionedRepository.GenericRepository.Insert | pkg/mongo/generic_repository.go:91-101 | inserts under the entity's id, or fails on an existing one without a change; another error may hide an insert |
| VersionedRepository.GenericRepository.FindByID | pkg/mongo/generic_repository.go:103-122 | the stored document as a domain object, not found, or a database or decoding error |
| VersionedRepository.GenericRepository.Update | pkg/mongo/generic_repository.go:250-287 | replaces exactly when the stored version is the one read; then returns the next version, or a database error that may hide the replacement; an optimistic-locking error changes nothing |
| VersionedRepository.GenericRepository.Delete | pkg/mongo/generic_repository.go:289-296 | removes that id and nothing else; a failed command may have done so |
| VersionedRepository.GenericRepository.UpsertIfNewer | pkg/mongo/generic_repository.go:316-336 | stores the entity exactly when nothing at least as new is stored; a stale call changes nothing and reports a duplicate key, never false |
| VersionedRepository.HighestVersionWins | pkg/mongo/generic_repository.go:319-336 | after any sequence of upserts each id holds a candidate of the highest version; a stored document gives way to newer ones only |
| VersionedRepository.UpsertsConverge | pkg/mongo/generic_repository.go:316-318 | the same set of upserts in any order and multiplicity leaves the same store, unless two different ones compete for being the newest of an id |
| VersionedRepository.ConvergenceExact | pkg/mongo/generic_repository.go:316-336 | delivery order and multiplicity do not matter if and only if no two different upserts compete for being the newest of an id |
| VersionedRepository.ConflictingUpsertsDiverge | pkg/mongo/generic_repository.go:322-325 | two such competitors leave different stores in two orders of the same deliveries |
| VersionedRepository.NoLostUpdates | pkg/mongo/generic_repository.go:251-287 | under any interleaving the stored document is the successful changes applied one after the other, and its version counts them |
| VersionedRepository.OneSuccessPerVersion | pkg/mongo/generic_repository.go:262-276 | at most one update based on a given version succeeds |
| Paging.FindWithOptions | pkg/mongo/generic_repository.go:180-248 | page below 1 counts as 1 and size below 1 as 10; the rows from (page-1)*size on, at most size, mapped in order; total and page count as counted before; count and query errors, and a negative skip, in the order of the code |
| Paging.ListingUnique | pkg/mongo/generic_repository.go:212-217 | when no two different matching documents tie, all answers of the database to one query are equal |
| Paging.PagesPartition | pkg/mongo/generic_repository.go:203-247 | then the pages of separate queries concatenate to the whole sorted result |
| Paging.PartitionExact | pkg/mongo/generic_repository.go:203-247 | for each page size: the pages partition the result under every treatment of ties if and only if different documents tie only within a page, in any one answer or in all |
| Paging.PartitionForEverySize | pkg/mongo/generic_repository.go:203-247 | for all page sizes together: if and only if no two different matching documents tie |
| Paging.PageLength | pkg/mongo/generic_repository.go:203-210 | every page but the last is full, the last is not empty, later ones are empty |
| Paging.PagesIsCeiling | pkg/mongo/generic_repository.go:235-239 | the page count is the rounded-up quotient |
| Paging.QueryExact | pkg/mongo/generic_repository.go:204-205 | the meant page is returned for every collection if and only if the skip fits in 64 bits |
| Paging.TiesBreakPages | pkg/mongo/generic_repository.go:212-214 | with a tie across pages of any size there are answers whose pages show one document once too often and the other once too little |
| TenantRegistry.SyncReachesApi | pkg/tenant/sync.go:55-81 | a successful Sync leaves exactly the API's tenants active, from any registry |
| TenantRegistry.SyncIsIdempotent | pkg/tenant/sync.go:27-44 | a second Sync with the same answer changes nothing, however much later |
| TenantRegistry.SyncRecovers | pkg/tenant/sync.go:39-41 | after a Sync that failed part way one successful Sync reaches the API's tenants, and tenants it had no business with stay untouched |
| TenantRegistry.RecordsOk | pkg/tenant/repository.go:64-104 | in every run active records have no deadline and pending ones one at most five minutes after their marking |
| TenantRegistry.MarkedBy | pkg/tenant/sync.go:67-78 | every pending record is unchanged since one marking, and its deadline is five minutes after the clock reading of that call |
| TenantRegistry.RemovedWhenDue | pkg/tenant/cleanup_worker.go:46-74 | a pass removes a tenant no earlier than five minutes after the clock reading of the call that marked it, pending all the time since |
| TenantRegistry.CreationTimeKept | pkg/tenant/repository.go:73-75 | no operation changes the creation time of an existing record |
| TenantRegistry.GracePeriod | pkg/tenant/cleanup_worker.go:46-74 | under any interleaving an active tenant stays registered for five minutes, less the longest time between clock reading and write of the calls that mark it |
| TenantRegistry.GraceExact | pkg/tenant/sync.go:69-76 | a marked tenant stays a given time if and only if clock reading and write lie close enough; the full five minutes only when they coincide |
| TenantRegistry.SlowSyncSkipsGrace | pkg/tenant/sync.go:67-78 | a Sync whose writes stall gets a tenant removed in the millisecond in which it was active |
| TenantRegistry.DeadlineKept | pkg/tenant/sync.go:67-78 | whatever happens to other tenants, a pending tenant that nobody asks for, and no call in progress has still to write, keeps record and deadline until a pass removes it, at or after that deadline |
| TenantRegistry.ReactivatedBy | pkg/tenant/sync.go:60-65 | a tenant nobody asks for becomes active only by a write that a call in progress had still to make |
| TenantRegistry.StaleSyncReactivates | pkg/tenant/sync.go:27-65 | a Sync that read its lists before a Delete makes the pending tenant active again |
| TenantServices.Repository.Upsert | pkg/tenant/repository.go:64-83 | the record becomes active without deadline and keeps its creation time |
| TenantServices.Repository.MarkForDeletion | pkg/tenant/repository.go:85-104 | the record becomes pending with the given deadline and keeps its creation time |
| TenantServices.Repository.FindPendingDeletion | pkg/tenant/repository.go:106-123 | exactly the pending records whose deadline has come, each once |
| TenantServices.Repository.FindActive | pkg/tenant/repository.go:125-139 | exactly the active slugs, each once, in any order |
| TenantServices.Repository.Remove | pkg/tenant/repository.go:141-147 | removes that slug and nothing else |
| TenantServices.TenantSyncer.SyncRegistry | pkg/tenant/sync.go:55-81 | slug by slug, what is new is activated and then what is gone is scheduled, all with one deadline; a failed write leaves a part of that; its commands are a path of the registry's steps |
| TenantServices.TenantSyncer.Sync | pkg/tenant/sync.go:27-44 | afterwards what is in the answer is active and the rest pending; no write when nothing differs; the active slugs and no change without an API answer |
| TenantServices.DifferencesMeaning | pkg/tenant/sync.go:60-68 | the two list differences are exactly the tenants to activate and to schedule |
| TenantServices.ReconciledMeans | pkg/tenant/sync.go:55-81 | status by status: what is in the answer is active, the rest pending, due five minutes after the clock reading or as it was |
| TenantServices.Lifecycle.Create | pkg/tenant/lifecycle.go:33-45 | registers the tenant, also when its migration then fails; a path of the registry's steps |
| TenantServices.Lifecycle.Delete | pkg/tenant/lifecycle.go:47-56 | schedules deletion five minutes after its clock reading; a path of the registry's steps |
| TenantServices.CleanupWorker.CleanupTenant | pkg/tenant/cleanup_worker.go:58-74 | cleaners run up to the first failure; the record goes only when every one of them succeeded, and then if the removal is applied; no other record changes |
| TenantServices.CleanupWorker.ProcessExpiredTenants | pkg/tenant/cleanup_worker.go:46-56 | a pass removes exactly the pending tenants that are due, for which every cleaner succeeded and the removal was applied; one Cleanup step |
| ReadinessLatch.StepInv | pkg/core/health/readiness.go:48-112 | every critical section and channel operation keeps the latch invariant |
| ReadinessLatch.LatchesStayClosed | pkg/core/health/readiness.go:102-110 | latches stay closed, traffic only after ready, no channel is closed twice, under all interleavings |
| ReadinessLatch.ClosesWhenAllReady | pkg/core/health/readiness.go:93-110 | the latch closes exactly when there is a component and every component is ready |
| ReadinessLatch.AllMarkedCloses | pkg/core/health/readiness.go:72-111 | once there is a component and every component has been marked, the latch is closed |
| ReadinessLatch.OpenGatesLetWorkersRun | pkg/core/worker/worker.go:72-96 | a worker whose gates are open gets to run without blocking |
| ReadinessLatch.MarkTrafficReadyCloses | pkg/core/health/readiness.go:193-215 | an undisturbed confirmation closes the traffic latch after the ready latch |
| ReadinessLatch.ReadyMeansWasAllReady | pkg/core/health/readiness.go:114-121 | it is closed exactly if there was a moment at which all components were ready |
| ReadinessLatch.WorkersAreGated | pkg/core/worker/worker.go:72-96 | a running worker has passed every gate it was configured with |
| ReadinessLatch.CancelledStaysStopped | pkg/core/worker/worker.go:72-96 | a cancelled worker never runs again |
| Readiness.Readiness.AddComponent | pkg/core/health/readiness.go:48-72 | adds an unready component that starts now; an empty name panics, a taken name gets a closure without effect |
| Readiness.Readiness.Call | pkg/core/health/readiness.go:72-111 | the component becomes ready, now if it was not before, all else stays; the latch closes exactly when there is a component and all are ready |
| Readiness.Readiness.GetStatus | pkg/core/health/readiness.go:123-159 | every component once, sorted by name, with the latest ready time |
| Readiness.SortedListingUnique | pkg/core/health/readiness.go:144-156 | the sorted status does not depend on the order of the map |
| Readiness.LessIsLexicographic | pkg/core/health/readiness.go:154-156 | the first difference of two names decides their order |
| Readiness.Readiness.MarkTrafficReady | pkg/core/health/readiness.go:193-215 | ignored until ready, effective once |
| Readiness.Readiness.WaitForTrafficReady | pkg/core/health/readiness.go:171-191 | passes when ready and, in Kubernetes mode, confirmed |
| Readiness.BaseWorker.Run | pkg/core/worker/worker.go:72-111 | runFunc is called exactly when the configured gates pass; shutdown is requested exactly on a configured failure |
| HttpRetry.ReplyKinds | pkg/http/client/retry.go:65-104 | which errors are retried, which are expiries, and which end the loop, sentinel by sentinel |
| HttpRetry.RetryTransport.DoRequest | pkg/http/client/retry.go:47-63 | a retry whose body cannot be renewed fails without a call of the base transport; everything else calls it once |
| HttpRetry.RetryTransport.RoundTrip | pkg/http/client/retry.go:20-45 | ends with the reply of the last phase, or still loops after any number of requests; idle connections are closed once, and only before the final attempt |
| HttpRetry.RequestsBounded | pkg/http/client/retry.go:21-44 | at most maxRetries + 2 + E requests; the final attempt comes after exactly maxRetries + 1 counted failures |
| HttpRetry.ResultIsFirstConclusive | pkg/http/client/retry.go:22-34 | the result is the first conclusive reply, or the final attempt's |
| HttpRetry.TerminatesExactly | pkg/http/client/retry.go:21-34 | a round trip ends if and only if some reply is conclusive or more than maxRetries replies are not expiries |
| HttpRetry.EndsWhenConnectionsRecover | pkg/http/client/retry.go:27-30 | it ends whenever the transport keeps giving replies that are no expiry and GetBody fails with none |
| HttpRetry.SomeRoundTripNeverEnds | pkg/http/client/retry.go:27-30 | there is a transport on which it loops forever |
| HeaderPropagation.MessageHeaders.Prepare | pkg/kafka/outbox/outbox.go:51-63 | key by key: event id, type, source and time from the event unless the trace has the key, the trace's own values, the tenant last, and whatever else the caller supplied |
| HeaderPropagation.ContextFromKafkaHeaders | pkg/tenant/messaging.go:27-40 | the first slug header decides; an empty one leaves the context as it is |
| HeaderPropagation.StartKafkaProducerSpan | pkg/kafka/outbox/trace_propagator.go:63-80 | the span's value for each of its keys and the stored one for all others, each key once, in some order |
| HeaderPropagation.InjectContext | pkg/kafka/consumer/tracing.go:81-100 | the trace's value for each of its keys and the last header's for all others, each key once |
| HeaderPropagation.DlqHeaders | pkg/kafka/consumer/dlq_handler.go:46-65 | the headers of the DLQ copy |
| HeaderPropagation.SlugRoundTrip | pkg/tenant/messaging.go:12-40 | from a map that is produced as Create left it the creating context's slug reaches the consumer, in every order of the list |
| HeaderPropagation.DlqKeepsHeaders | pkg/kafka/consumer/dlq_handler.go:47-65 | the copy keeps the last value of every key but the five and the propagator's own |
| HeaderPropagation.DlqDescribesFailure | pkg/kafka/consumer/dlq_handler.go:49-55 | the five dlq headers describe this failure, also for a record that has them already |
| HeaderPropagation.DlqSlugExact | pkg/kafka/consumer/tracing.go:82-99 | the DLQ consumer sees the original's tenant if and only if its first and last slug headers agree |
| HeaderPropagation.DuplicateSlugsDiffer | pkg/kafka/consumer/tracing.go:83-86 | two different slug headers change the tenant of the copy |
| HeaderPropagation.SlugSurvivesDlq | pkg/tenant/messaging.go:29-38 | and the DLQ copy carries it as well |
| EnvKeys.TransformIsConvention | pkg/core/config/koanf.go:53-67 | the three passes equal the documented convention read off in one scan |
| EnvKeys.LevelsAndWords | pkg/core/config/koanf.go:55-67 | between two parts a double underscore becomes a dot and a single one a dash |
| EnvKeys.LowerLetters | pkg/core/config/koanf.go:60 | letter by letter, upper case becomes lower case and all else stays |
| EnvKeys.KeyIsLower | pkg/core/config/koanf.go:58-65 | a key has no upper-case letter and no underscore |
| EnvKeys.RoundTripExact | pkg/core/config/koanf.go:59-67 | the lowercased name can be read back if and only if it has no '.', '-' or NUL |
| EnvKeys.NoCollisions | pkg/core/config/koanf.go:34-37 | of names without '.', '-' and NUL, those that differ by more than case never share a key |
| EnvKeys.CollisionOutside | pkg/core/config/koanf.go:63-65 | a dot in place of the level delimiter gives the same key |

## Left out

- OutboxStore.OutboxRepository.FetchAndLock: clock skew between service instances, and the time between reading the clock and the command, are not modelled; the numeric types of `$pow` and `$multiply` are unbounded integers
- OutboxStore.OutboxRepository.Create: the caller's database transaction and serialization failures are not modelled; a Create step is a committed insert
- OutboxStore.OutboxRepository.UpdateAsSentByIDs: the update of several documents is one step, also when it fails part way
- OutboxTheorems.EventuallyTouched: how often the Fetcher polls is not bounded; the statement counts successful fetches
- ConsumerPipeline.CommitsAreSafe: delivery to the DLQ topic is not claimed, only the hand-over to the DLQ handler, whose failures are logged and ignored
- MessageRetry.ExecuteWithRetry: lengths of the backoff intervals and the processing timeout are not modelled
- VersionedRepository.GenericRepository.Update: versions are unbounded integers, without the wrap-around of int64
- Paging.FindWithOptions: the filter, the cursor and the count are given as the listing of the matching documents; `int` has 64 bits
- TenantServices.TenantSyncer.SyncRegistry: what the contract says about each slug is for a call with no other writer between its read and its writes; TenantRegistry's runs have any number of interleaved calls
- TenantServices.CleanupWorker.ProcessExpiredTenants: a pass is atomic; a tenant activated between the find and its removal is not modelled
- Readiness.BaseWorker.Run: blocking is not executed; a wait that cannot pass counts as cancelled, and waiting while others act is in ReadinessLatch
- HttpRetry.RetryTransport.RoundTrip: the call is followed up to a given number of requests, since it need not end; contents of requests and responses are not modelled, in particular that an expiry on the first attempt resends the same request object
- HeaderPropagation.SlugRoundTrip: is about one map that nobody else writes; OutboxHeaders.TenantExact has the shared ones
- OutboxHeaders.FastPathExact: two goroutines in one header map at once, which is a data race, are not modelled
- EnvKeys.TransformIsConvention: lower-casing is ASCII only
- OutboxNode.OutboxNode.SendNext: the endless loops of Fetcher, Sender, Reader, deserializer and Processor appear as any sequence of calls of their one-iteration methods
- the libraries themselves: MongoDB, franz-go, OpenTelemetry, backoff, fx, protobuf, zap
- configuration structs, defaults and validation, logging, metrics, profiling, migrations, interceptors, token sources and JWT validation
