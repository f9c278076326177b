# Verified model of the durable job, ledger and evidence core

This Dafny project models the parts of `contextual_orchestrator` that have to stay correct
while workers race, processes die, transactions roll back and providers answer out of order,
and proves what those parts promise. `dafny verify dfyconfig.toml` checks all of it.

Three forms are used. What the source does step by step inside one object is a class or a
method with loops (the registry, the two ledgers, the two stores, the worker pool, the
measured router, the file system of a publication, packing, splitting, rollup, encryption).
What happens between threads and processes is a state machine: an event type, an `Apply`
function and an invariant over every run; where the source also has an object, the methods
of a class are proved to be exactly those events. Everything else is functions and lemmas.

| file | what it models |
|---|---|
| `JobRegistry`, `LeasedJobs` | provider embedding jobs: the registry scripts, the expiring claim, and every interleaving of workers, renewals, expiry, cancellation and crashes |
| `WorkerPool` | the daemon worker pool |
| `EndpointRace` | racing equivalent endpoints for the first valid answer |
| `UsageExports`, `InlineLedger`, `QueuedLedger` | which usage records reach the billing sink while the caller owns the transaction |
| `LedgerStores`, `LedgerRollup` | the normalised SQL store against the list store, and rollups over either |
| `ShardPacking`, `TextSplitter` | splitting an input into token-safe parts and packing parts into provider calls |
| `EmbeddingDownload`, `EmbeddingDocument` | validating a download, restoring order, regrouping parts, averaging vectors |
| `BatchRetrieval` | recording a batch's usage once, however often it is retrieved |
| `ArtifactPublication` | crash-safe publication of an artifact directory |
| `MeasuredRouter` | outcome counts, moving averages and minute windows of the model-group router |
| `ModelSelection`, `CostOrdering` | price-gated selection and stable cost ordering |
| `PiiProtection` | field encryption and its authenticated context |
| `Prelude`, `StableSort` | sequence folds, UTF-8, and a stable sort |

Modelling choices: money is an integer number of millionths; latencies, prices and vector
components are reals; time is a clock that does not run backwards; SHA-256 is an injective
function; the tokenizer is an arbitrary deterministic function; AES-GCM is an ideal cipher.
Random nonces, fresh ids and the outcome of a provider call, an SQL statement or a file
system call are parameters.

## What turned out not to hold

The code is modelled as it is. Where a promise does not hold on every input, the exact
condition under which it does is proved.

- `start()` reads a job's state and then writes it in two steps. The write is harmless
  exactly when the job has not become terminal in between; otherwise a cancelled job runs
  again (`LeasedJobs.SplitStartIsSafeIff`, `LeasedJobs.SplitStartRevivesCancelledJob`).
- A record whose transaction is rolled back stays deferred until the next settlement. If its
  id is recorded anew before that, and that record is committed and flushed, one stored
  record is exported twice and counted twice. Both ledgers do this. Along every run that
  reuses no unsettled id, no id is exported twice; and from every state that keeps that, a
  record followed by a commit and a flush leaves exports unique per id exactly when it is no
  such reuse (`InlineLedger.EveryRunExportsIdsOnce`,
  `InlineLedger.CommittedRecordIsExportedOnceIff`, `QueuedLedger.EveryRunExportsIdsOnce`,
  `QueuedLedger.CommittedWriteIsExportedOnceIff`). A reuse that is rolled back as well
  exports nothing.
- The queueing store's worker can write into a transaction its caller has just opened. If
  the caller rolls back before the worker has recorded the write, the worker exports a
  record that was never committed (`QueuedLedger.RollbackIsSafeIff`,
  `QueuedLedger.HeldRecordIsExportedUncommitted`).
- With no declared field, `encrypt_fields` returns a detail unchecked, even one that holds
  the reserved key, and `decrypt_fields` then takes that entry for metadata. And a declared
  field that holds a tuple, or a dictionary with number or None keys, comes back as a list,
  or with string keys. The round trip is exact when every declared field holds a value JSON
  has, and only then (`PiiProtection.RoundTripIff`, `PiiProtection.TupleDoesNotRoundTrip`).
- Two items of one batch that record the same kind of usage under the same custom id share
  record ids, and the second is dropped as a duplicate
  (`BatchRetrieval.FirstRetrievalStoresEverythingIff`).
- A retrieval whose records are all stored reads the ledger's records, and over the list
  store that clears the counts and the cost of every unavailable row in the ledger, whatever
  job it belongs to, and changes its totals; a retrieval of no items does it too. Earlier rows
  are untouched exactly when the retrieval does not settle or no unavailable one of them still
  holds a count or a cost (`BatchRetrieval.EarlierRowsUntouchedIff`,
  `BatchRetrieval.EmptyRetrievalMasksEarlierRow`); and exactly then the list store still agrees
  with the SQL store (`LedgerStores.StoresAgreeAfterRecordsIff`).
- A comment in `retrieve_batch` speaks of estimating a step from what was asked. The code
  never reads those messages: a step without counts is recorded as unavailable.
- A member whose prior and outcomes add up to nothing cannot be scored: the division by zero
  is raised. `update_prior` accepts the empty prior, and a resolver may return a negative one
  (`MeasuredRouter.ScoreFailsIff`).
- An interrupt after the commit rename makes a publication raise although its set is already
  committed; nothing else does (`ArtifactPublication.FileSystem.PublishArtifactSet`).

## Model

| member | source | states |
|---|---|---|
| `JobRegistry.JobRegistryFactory.PublishProviderEmbeddingTerminal` | contextual_orchestrator/batch_job_registry.py:298-345 | accepted exactly from the unexpired holder of a queued or running job; then results and usage with completed, or the error with failed, in one step; refused, it changes nothing |
| `JobRegistry.JobRegistryFactory.MarkProviderEmbeddingRunning` | contextual_orchestrator/batch_job_registry.py:347-373 | a job runs exactly under the stored unexpired token and from queued or running |
| `JobRegistry.JobRegistryFactory.CancelProviderEmbedding` | contextual_orchestrator/batch_job_registry.py:375-404 | cancels reserved, queued and running jobs, writing the cancellation record with the state |
| `JobRegistry.JobRegistryFactory.StoreDeadlineIfAbsent` | contextual_orchestrator/batch_job_registry.py:175-180 | the first deadline stored for a job stays |
| `JobRegistry.JobRegistryFactory.AcquireClaim` | contextual_orchestrator/batch_job_registry.py:210-243 | granted exactly where no claim is held and unexpired; then the token holds the lock for the whole lease; refused, nothing changes; other jobs' leases stay |
| `JobRegistry.JobRegistryFactory.ExtendClaim` | contextual_orchestrator/batch_job_registry.py:63-111 | only the stored token renews, only before expiry, and from now on for the lease |
| `JobRegistry.JobRegistryFactory.ReleaseClaim` | contextual_orchestrator/batch_job_registry.py:231-290 | only the stored token removes the claim |
| `JobRegistry.PublishIsSafe` | contextual_orchestrator/batch_job_registry.py:298-345 | publishing keeps records matched to states, rewrites nothing terminal, and does nothing for a token that is not the stored one |
| `JobRegistry.MarkRunningIsSafe` | contextual_orchestrator/batch_job_registry.py:347-373 | the same for the mark-running script |
| `JobRegistry.CancelIsSafe` | contextual_orchestrator/batch_job_registry.py:375-404 | cancelling keeps records matched to states and leaves terminal jobs alone |
| `JobRegistry.HeldClaimWithstandsOthers` | contextual_orchestrator/batch_job_registry.py:210-290 | while a claim is held and unexpired, acquiring, renewing or releasing under another token is refused, and leaves its lease alone whichever job it names |
| `LeasedJobs.CompletedExactlyWhenUniform` | contextual_orchestrator/batch_routing.py:1241-1312 | a run completes if and only if it is in time, has one vector per request and one common non-zero dimension; then it holds one result per request in order |
| `LeasedJobs.StepKeepsInv` | contextual_orchestrator/batch_routing.py:1133-1348 | every single step of any worker, starter, canceller or renewal keeps the registry invariant |
| `LeasedJobs.EveryRunKeepsInv` | contextual_orchestrator/batch_routing.py:1078-1348 | the invariant holds in every interleaving of workers, lease expiry, takeover, cancellation, crash and restart |
| `LeasedJobs.TerminalForever` | contextual_orchestrator/batch_routing.py:1078-1348 | a completed, failed or cancelled job never leaves that state or changes a record, and has exactly the records its state calls for |
| `LeasedJobs.NoRecordBeforeTheEnd` | contextual_orchestrator/batch_routing.py:1313-1348 | before a terminal state there are no results, usage, error or cancellation record |
| `LeasedJobs.OneDeadline` | contextual_orchestrator/batch_routing.py:1183-1214 | all workers of a job use the one deadline that was written |
| `LeasedJobs.StaleTokenChangesNothing` | contextual_orchestrator/batch_job_registry.py:63-111 | a worker whose token is not the stored lock value changes no state and no record |
| `LeasedJobs.OwnersAreExclusive` | contextual_orchestrator/batch_job_registry.py:231-264 | no two workers of a job hold its stored token at once |
| `LeasedJobs.HeldLeaseStays` | contextual_orchestrator/batch_job_registry.py:210-290 | no step but the holder's own renewal or release changes a lease that has not lapsed |
| `LeasedJobs.HeldLeaseLasts` | contextual_orchestrator/batch_job_registry.py:210-290 | in every interleaving a claim its holder neither renews nor releases is the lock value until it lapses |
| `LeasedJobs.UndisturbedRunEndsItsJob` | contextual_orchestrator/batch_routing.py:1241-1348 | claim, mark running, the runner's answer, publish and release, undisturbed within the lease: completed with one result per request in order and the usage, or failed as late, as malformed or as the runner's exception; the lock is free again |
| `LeasedJobs.ExpiredJobFails` | contextual_orchestrator/batch_routing.py:1216-1239 | a pending job past its deadline is failed by the worker that claims it, with the deadline error |
| `LeasedJobs.FreshJobBecomesClaimable` | contextual_orchestrator/batch_routing.py:1117-1214 | reserve, start and pick-up leave a new job pending with its requests, and with now plus the timeout for each request, at least one, as its deadline |
| `LeasedJobs.StoredDeadlineIsLoaded` | contextual_orchestrator/batch_routing.py:1190-1192 | a worker that finds a deadline stored uses that one |
| `LeasedJobs.RefusedClaimWaits` | contextual_orchestrator/batch_routing.py:1161-1171 | a claim on a held job changes nothing and leaves its worker where it was |
| `LeasedJobs.RenewalProlongs` | contextual_orchestrator/batch_job_registry.py:245-264 | the holder's renewal lasts from now on for the renewed time |
| `LeasedJobs.AbandonedRunKeepsJob` | contextual_orchestrator/batch_routing.py:1241-1297 | a run that loses its claim or whose registry raises leaves the job as it was, and the lock free if it was still its own |
| `LeasedJobs.LostReplyKeepsOutcome` | contextual_orchestrator/batch_routing.py:1288-1348 | when the reply to a publication is lost, the failure then published is refused and the first outcome stays |
| `LeasedJobs.SplitStartIsSafeIff` | contextual_orchestrator/batch_routing.py:1133-1144 | start's second half is safe if and only if the job is not terminal by then |
| `LeasedJobs.SplitStartRevivesCancelledJob` | contextual_orchestrator/batch_routing.py:1138-1140 | a cancellation between start's check and its write is undone, leaving a pending job with a cancellation record |
| `WorkerPool.StepKeepsInv` | contextual_orchestrator/batch_routing.py:914-990 | each step keeps every accepted task in exactly one place, the worker bound, and no task behind a sentinel |
| `WorkerPool.EveryRunKeepsInv` | contextual_orchestrator/batch_routing.py:914-990 | the same in every run of submitters, workers and a shutdown |
| `WorkerPool.NothingLeftAfterShutdown` | contextual_orchestrator/batch_routing.py:946-990 | once every worker has exited the queue is empty, each accepted task stands once among the finished and the cancelled, and without cancel_futures among the finished |
| `WorkerPool.NobodyIsStranded` | contextual_orchestrator/batch_routing.py:914-990 | after the sentinels are posted there is one for every worker left, and each worker can finish its task or receive the next item |
| `WorkerPool.ClosedPoolRunsOut` | contextual_orchestrator/batch_routing.py:914-990 | and only so many such steps remain: a task runs, a sentinel ends its worker |
| `WorkerPool.DaemonWorkerPool.Submit` | contextual_orchestrator/batch_routing.py:925-944 | a closed pool refuses; an open one appends the next task and starts a worker exactly while below the limit |
| `WorkerPool.DaemonWorkerPool.Shutdown` | contextual_orchestrator/batch_routing.py:946-990 | the first call leaves the queued tasks, or drops them into the cancelled list in order when told to, then queues one sentinel for each worker; a later call changes nothing |
| `WorkerPool.DaemonWorkerPool.TakeNext` | contextual_orchestrator/batch_routing.py:914-920 | a waiting worker receives the head of the queue: it runs a task and exits at a sentinel |
| `WorkerPool.DaemonWorkerPool.FinishTask` | contextual_orchestrator/batch_routing.py:919-923 | a task that returned or raised is finished and its worker waits again |
| `EndpointRace.StepKeepsInv` | contextual_orchestrator/endpoint_race.py:109-234 | every step of a worker or of the coordinator keeps the race invariant |
| `EndpointRace.EveryRunKeepsInv` | contextual_orchestrator/endpoint_race.py:80-234 | the invariant holds under every scheduling |
| `EndpointRace.FuturesSettleOnce` | contextual_orchestrator/endpoint_race.py:109-138 | a settled future keeps its value, a cancelled one stays cancelled, a recorded outcome stays |
| `EndpointRace.QueuedCancelledIsNeverCalled` | contextual_orchestrator/endpoint_race.py:174-197 | the provider of an endpoint reported queued_cancelled is called at no time in the whole run |
| `EndpointRace.FutureTellsWhatHappened` | contextual_orchestrator/endpoint_race.py:109-138 | in terms of the events alone: a future holds a value if and only if the call returned it, it was valid and the observer passed it; it is a failure if and only if the worker settled and one of the three went wrong |
| `EndpointRace.EveryWorkerCanGoOn` | contextual_orchestrator/endpoint_race.py:109-138 | a worker is never stuck, a pending endpoint gets called, and every settled future can be collected |
| `EndpointRace.CollectDecides` | contextual_orchestrator/endpoint_race.py:200-234 | a batch with a value makes its lowest such endpoint the winner; a batch of failures waits for the rest, or is all-failed when there is none |
| `EndpointRace.LoserIsReported` | contextual_orchestrator/endpoint_race.py:174-197 | each step of cancelling a loser by its future: completed, failed, cancelled while pending, or in flight and asked to cancel or left to drain |
| `EndpointRace.WinnerIsReturned` | contextual_orchestrator/endpoint_race.py:217-230 | the loser loop can always go on and ends by returning the winner |
| `EndpointRace.WinnerIsFirstValid` | contextual_orchestrator/endpoint_race.py:200-234 | the winner's call returned the very value reported, it passed validation and its observer; every lower endpoint of its batch raised, was invalid or was refused; exactly the others have an outcome |
| `EndpointRace.FailureReportsAreTruthful` | contextual_orchestrator/endpoint_race.py:200-234 | all-failed means that every endpoint was called and its call raised, its response was invalid or its observer refused; after a deadline, endpoints without an outcome have failed |
| `InlineLedger.StepKeepsInv` | contextual_orchestrator/cost_ledger.py:1366-1487 | one record, flush, begin, commit or rollback keeps the export and counting invariant |
| `InlineLedger.EveryRunKeepsInv` | contextual_orchestrator/cost_ledger.py:1435-1477 | over any such sequence only committed ids are exported, no accepted append twice, and calls = stored + dropped + append failures |
| `InlineLedger.RecordReachesStoreIff` | contextual_orchestrator/cost_ledger.py:1435-1477 | with or without a sink, a record is stored if and only if its append does not raise and its id is new; inside a transaction it follows the caller's commit or rollback; each record adds to exactly one of stored, dropped and failed |
| `InlineLedger.SettledById` | contextual_orchestrator/cost_ledger.py:1754-1789 | settling exports every deferred call of a committed id and counts every other as dropped instead of stored |
| `InlineLedger.RecordKeepsOneExportIff` | contextual_orchestrator/cost_ledger.py:1435-1477 | a record keeps exported and still deferred calls together unique per id if and only if it does not reuse the id of an unsettled rolled-back record |
| `InlineLedger.EveryRunExportsIdsOnce` | contextual_orchestrator/cost_ledger.py:1435-1477 | along every run that reuses no unsettled id, no id is exported twice |
| `InlineLedger.CommittedRecordIsExportedOnceIff` | contextual_orchestrator/cost_ledger.py:1435-1477 | a record, then a commit where a transaction is open, then a flush leaves exports unique per id if and only if the record reused no unsettled id |
| `InlineLedger.RolledBackRecordIsExportedTwice` | contextual_orchestrator/cost_ledger.py:1754-1789 | the shortest run in which one stored record is exported twice |
| `InlineLedger.CostLedger.FlushDeferredUsageExports` | contextual_orchestrator/cost_ledger.py:1754-1789 | outside a transaction the deferred records of committed ids are exported in order and the others turn from stored to dropped; a failing lookup counts itself and keeps them all |
| `InlineLedger.CostLedger.RecordUsage` | contextual_orchestrator/cost_ledger.py:1435-1477 | settles first; then, sink or not, a new id reaches the store, a known id or a raising append leaves it alone and adds to its own counter; with a sink the call is last among the exported, or among the deferred inside a transaction |
| `QueuedLedger.StepKeepsInv` | contextual_orchestrator/cost_ledger.py:506-714 | every step but a rollback under a held record keeps the invariant |
| `QueuedLedger.EveryRunKeepsInv` | contextual_orchestrator/cost_ledger.py:506-714 | with a sink or without, any interleaving of caller, worker, flush and settlement without such a rollback exports only committed ids, and each call at most once |
| `QueuedLedger.StepKeepsOneExportIff` | contextual_orchestrator/cost_ledger.py:506-714 | a step keeps exported, deferred and held records unique per id if and only if it writes no id that is among them |
| `QueuedLedger.EveryRunExportsIdsOnce` | contextual_orchestrator/cost_ledger.py:506-714 | along every run that reuses no unsettled id, directly or through the queue, no id is exported twice |
| `QueuedLedger.CommittedWriteIsExportedOnceIff` | contextual_orchestrator/cost_ledger.py:506-714 | a step, then a commit, what the worker still records, and a flush leave exports unique per id if and only if the step reused no unsettled id |
| `QueuedLedger.OnlyDeferredIdsAreReused` | contextual_orchestrator/cost_ledger.py:506-714 | while every export is committed, the id reused is one that is still deferred |
| `QueuedLedger.StoredAreCommitted` | contextual_orchestrator/cost_ledger.py:680-708 | with neither kind of fault, no more records are counted as stored than are committed |
| `QueuedLedger.RolledBackRecordStaysDeferred` | contextual_orchestrator/cost_ledger.py:506-540 | a record written into a transaction that is rolled back is deferred and stored nowhere |
| `QueuedLedger.RolledBackRecordIsExportedTwice` | contextual_orchestrator/cost_ledger.py:599-640 | from there, queueing the id again, one turn of the worker and a flush export and count one stored record twice |
| `QueuedLedger.EveryRunCounts` | contextual_orchestrator/cost_ledger.py:506-714 | in every interleaving calls = stored + dropped + append failures + outstanding |
| `QueuedLedger.QueuedRecordIsStored` | contextual_orchestrator/cost_ledger.py:506-708 | a new record that the idle worker handles undisturbed is committed and counted once, and exported if there is a sink |
| `QueuedLedger.RecordInTransactionFollowsIt` | contextual_orchestrator/cost_ledger.py:506-640 | a new record inside the caller's transaction is durable with its commit, gone with its rollback, and exported once it settles |
| `QueuedLedger.RollbackIsSafeIff` | contextual_orchestrator/cost_ledger.py:647-708 | what the worker's bookkeeping exports after a rollback is committed if and only if the worker held no record written into that transaction |
| `QueuedLedger.HeldRecordIsExportedUncommitted` | contextual_orchestrator/cost_ledger.py:680-708 | otherwise the worker's next step exports an uncommitted record |
| `QueuedLedger.HeldRecordIsReachable` | contextual_orchestrator/cost_ledger.py:647-708 | and such a state is reached in four steps |
| `QueuedLedger.IdleBeginsAreSafe` | contextual_orchestrator/cost_ledger.py:506-714 | a caller that begins only when nothing is queued and the worker is idle never rolls back a held record, and only committed ids are exported |
| `QueuedLedger.NonBlockingLedgerStore.Append` | contextual_orchestrator/cost_ledger.py:506-557 | inside the caller's transaction a new id is written, its export deferred or, with no sink, the record counted as stored; a known id or a raising append leaves the store alone; outside one the call is queued up to capacity and dropped beyond it |
| `QueuedLedger.NonBlockingLedgerStore.TakeNext` | contextual_orchestrator/cost_ledger.py:647-649 | the worker takes the head of the queue |
| `QueuedLedger.NonBlockingLedgerStore.WriteTaken` | contextual_orchestrator/cost_ledger.py:650-676 | the worker's write puts a new id in the store and keeps the call in hand; a known id is dropped and a raising append counted, the store untouched |
| `QueuedLedger.NonBlockingLedgerStore.RecordWritten` | contextual_orchestrator/cost_ledger.py:680-708 | with a sink and an open transaction defers, else counts the record as stored and exports it if there is a sink |
| `QueuedLedger.NonBlockingLedgerStore.SettleUsageRecordIds` | contextual_orchestrator/cost_ledger.py:578-597 | outside a transaction releases the confirmed ids and keeps the rest deferred |
| `QueuedLedger.NonBlockingLedgerStore.Flush` | contextual_orchestrator/cost_ledger.py:599-640 | deferred records are exported if committed, dropped if not, and kept if the lookup fails |
| `LedgerStores.SqlLedgerStore.Append` | contextual_orchestrator/cost_ledger.py:1194-1261 | raises if and only if one of its own statements failed; inside a savepoint or not the append is whole or absent, and a duplicate changes nothing |
| `LedgerStores.SqlLedgerStore.InsertNormalizedAttribution` | contextual_orchestrator/cost_ledger.py:1057-1068 | five attribution links, blanks as unattributed |
| `LedgerStores.InMemoryLedgerStore.Append` | contextual_orchestrator/cost_ledger.py:725-732 | a new id is appended, a known id refused |
| `LedgerStores.InMemoryLedgerStore.Query` | contextual_orchestrator/cost_ledger.py:734-736 | exactly the rows with start <= created_at < end, in order, either bound possibly missing |
| `LedgerStores.InMemoryLedgerStore.Records` | contextual_orchestrator/cost_ledger.py:1707-1719 | returns the rows of the window with unavailable ones masked, and rewrites them in the store |
| `LedgerStores.RecordsRewritesIff` | contextual_orchestrator/cost_ledger.py:1707-1719 | reading records rewrites the list if and only if an unavailable row of the window holds a count or a cost |
| `LedgerStores.StoresAgreeAfterRecordsIff` | contextual_orchestrator/cost_ledger.py:1707-1719 | the two stores agree after reading records if and only if it rewrote nothing |
| `LedgerStores.OneOfEachSatellite` | contextual_orchestrator/cost_ledger.py:958-974 | a usage row owns exactly one measurement, one price-knowledge and five attribution rows |
| `LedgerStores.AppendRefinesList` | contextual_orchestrator/cost_ledger.py:1194-1261 | a stored record takes the tables to those of the longer list |
| `LedgerStores.StoresStayInStep` | contextual_orchestrator/cost_ledger.py:1194-1261 | after any appends the two stores accepted the same ids and the tables represent the list |
| `LedgerStores.QueryRefinesList` | contextual_orchestrator/cost_ledger.py:1263-1303 | a query returns the list store's rows as a multiset, up to upstream_api = provider and blanks as unattributed |
| `LedgerStores.NormalisedColumns` | contextual_orchestrator/cost_ledger.py:1057-1068 | normalisation touches the upstream column and blank attributions only |
| `LedgerStores.MaskRowIff` | contextual_orchestrator/cost_ledger.py:1707-1719 | masking clears the three counts and the cost of an unavailable row and nothing else, and changes a row exactly when one of them was there |
| `LedgerRollup.Rollup` | contextual_orchestrator/cost_ledger.py:1531-1620 | an unknown dimension is refused; else one bucket per key, holding the sums of that key's rows and the first row's currency |
| `LedgerRollup.Total` | contextual_orchestrator/cost_ledger.py:1652-1705 | the sums over all rows of the window |
| `LedgerRollup.DimensionReadsItsColumn` | contextual_orchestrator/cost_ledger.py:49-70 | each dimension keys on its own column, a blank one counting as unattributed |
| `LedgerRollup.SumsOfOneRow` | contextual_orchestrator/cost_ledger.py:1583-1595 | one row's counts, tokens and cost, under its status and its price knowledge |
| `LedgerRollup.SumsOfLists` | contextual_orchestrator/cost_ledger.py:1583-1595 | each sum of two lists of rows is the two lists' sums added |
| `LedgerRollup.ReportShowsItsRows` | contextual_orchestrator/cost_ledger.py:1652-1705 | the shown cost is the sum of the rows' costs unless one is unavailable; the shown status is that of the least known row |
| `LedgerRollup.BucketsPartitionTotal` | contextual_orchestrator/cost_ledger.py:1531-1620 | for every dimension, the counts, tokens and costs of the buckets add up to the total |
| `LedgerRollup.BreakdownsAgree` | contextual_orchestrator/cost_ledger.py:1652-1705 | the by-status and the by-price counts and costs each cover every row |
| `LedgerRollup.CostNullIffUnavailable` | contextual_orchestrator/cost_ledger.py:1314-1323 | an amount is withheld if and only if one of its rows is unavailable |
| `LedgerRollup.MaskChangesReportIff` | contextual_orchestrator/cost_ledger.py:1707-1719 | masking a row changes what a report adds up if and only if the row is unavailable and holds an amount that is not zero |
| `LedgerRollup.AdjacentWindowsAddUp` | contextual_orchestrator/cost_ledger.py:1306-1311 | sums over [a,b) and [b,c) add up to those over [a,c), for the total and for any bucket |
| `LedgerRollup.StoresReportAlike` | contextual_orchestrator/cost_ledger.py:1531-1705 | the bucket keys, the totals and every bucket's sums are the same whichever store answers, in whatever row order |
| `ShardPacking.RunProviderEmbeddings` | contextual_orchestrator/cost_router.py:296-325 | the loop calls the provider on exactly the greedy shards, in order, stopping at the first error |
| `ShardPacking.PackedIsLegalSplit` | contextual_orchestrator/cost_router.py:296-325 | shards concatenate to the requests and each is within both limits or a singleton |
| `ShardPacking.GreedyStaysAhead` | contextual_orchestrator/cost_router.py:296-325 | the exchange argument: against any legal split the greedy loop is never behind |
| `ShardPacking.GreedyPackingIsOptimal` | contextual_orchestrator/cost_router.py:296-325 | no split into contiguous legal shards has fewer shards |
| `ShardPacking.RunKeepsRequestOrder` | contextual_orchestrator/cost_router.py:313-325 | the vector of each request ends up at that request's own position |
| `ShardPacking.TokensOfOne` | contextual_orchestrator/cost_router.py:309-312 | a request counts its own tokens if known, else the bytes of its text |
| `ShardPacking.RunOfLists` | contextual_orchestrator/cost_router.py:305-325 | the first error ends a run; else vectors follow each other and usage adds up |
| `TextSplitter.ForceTokenSafeChunks` | contextual_orchestrator/cost_router.py:1664-1740 | terminates for every tokenizer; chunks concatenate to the text, none is empty, each within the character limit and within the token limit unless one character long; an error means the tokenizer failed so on a piece of this text; and no more is split than has to be: a fitting text is one part, a text that is only too long is cut at full lengths, one that is too big between units where those fit, a lone unit into halves where those fit |
| `TextSplitter.PackUnits` | contextual_orchestrator/cost_router.py:1690-1740 | the same for the unit loop, on a text too big to be one chunk; where every unit fits the parts are the greedy packing of the units |
| `TextSplitter.SplitEmbeddingInput` | contextual_orchestrator/cost_router.py:1636-1662 | the entry point: a fitting text is one part; the fallback is taken exactly where it applies; with a tokenizer that counts every piece of the text it never fails |
| `TextSplitter.Units` | contextual_orchestrator/cost_router.py:67 | the word pattern cuts a text into non-empty units that concatenate to it |
| `TextSplitter.UnitsBeginAtWords` | contextual_orchestrator/cost_router.py:67 | no word begins inside a unit, and every unit after the first begins at one |
| `TextSplitter.PackedBetweenUnits` | contextual_orchestrator/cost_router.py:1690-1722 | the greedy packing cuts between units only, and no part could have taken the next unit |
| `TextSplitter.CutByLength` | contextual_orchestrator/cost_router.py:1676-1688 | the stride loop: parts of full length where only the length forces a cut |
| `TextSplitter.CutInHalf` | contextual_orchestrator/cost_router.py:1728-1740 | one unit too big by itself is split in the middle |
| `EmbeddingDownload.ValidatedDownloadResponses` | contextual_orchestrator/batch_routing.py:279-318 | accepts if and only if there is one successful row per expected id and nothing else; else the error of the first row at fault, or incomplete |
| `EmbeddingDownload.CompleteMeans` | contextual_orchestrator/batch_routing.py:293-318 | said of the rows: each answers an expected id, did not fail and has a response whose status is absent or from 200 to 299; no id twice and none missing |
| `EmbeddingDownload.RowFaultMeans` | contextual_orchestrator/batch_routing.py:294-314 | which fault a row has first, by its id, its failed flag, its response and its status |
| `EmbeddingDownload.Retrieve` | contextual_orchestrator/batch_routing.py:1532-1581 | raises, or returns one item per request at its submitted place holding the row that answered it; a wire id used twice always raises |
| `EmbeddingDownload.DownloadOrderIsIrrelevant` | contextual_orchestrator/batch_routing.py:1555-1581 | two downloads of the same rows in any order give the same items |
| `EmbeddingDownload.ByWireIdFacts` | contextual_orchestrator/batch_routing.py:1473-1517 | the tracked dictionary has exactly the ids of the tracked order, and with distinct ids maps each to its own request |
| `EmbeddingDownload.WireIdsTellRequestsApart` | contextual_orchestrator/batch_routing.py:706-717 | for one agent, distinct wire ids mean distinct internal ids |
| `EmbeddingDownload.ShortIdsStay` | contextual_orchestrator/batch_routing.py:706-717 | a short id without an agent goes over the wire as it is |
| `EmbeddingDownload.WireIdsDiffer` | contextual_orchestrator/batch_routing.py:706-717 | requests that name agents without a NUL share a wire id if and only if they share agent and id; so do long ids without agents |
| `EmbeddingDocument.BuildEmbeddingRequests` | contextual_orchestrator/cost_router.py:1561-1601 | one request per part, carrying its input and part index, and the part counts |
| `EmbeddingDocument.BuiltInOrder` | contextual_orchestrator/cost_router.py:1561-1601 | after the requests of earlier inputs, part k of an input asks for that chunk's text with its count, its fresh id, its input and its index |
| `EmbeddingDocument.BuildDocument` | contextual_orchestrator/cost_router.py:1852-1990 | per input the sum of its parts' counts and their average; it raises if and only if an input's provider usage is unassignable (split, or no total) or the first such input has no agent, and the first such input decides which error; with every count known it never raises |
| `EmbeddingDocument.EachInputGetsItsOwnParts` | contextual_orchestrator/cost_router.py:1852-1970 | after a retrieval that did not raise, each input's group is exactly its own parts in part order, part k with the vector and the count of the item at its request's place |
| `EmbeddingDocument.RegroupedParts` | contextual_orchestrator/cost_router.py:1561-1601 | as many parts as the input was split into; part k has the vector of the item at the place of its request, and that item's count if positive, else the chunk's, else the tokenizer's |
| `EmbeddingDocument.UnsplitInputKeepsItsVector` | contextual_orchestrator/cost_router.py:1867-1970 | an input that was not split gets back the very vector its request was answered with, and the item's own count |
| `EmbeddingDocument.RegroupedCoversAll` | contextual_orchestrator/cost_router.py:1852-1970 | the groups together are every returned part once |
| `EmbeddingDocument.GrandTotalIsSumOfParts` | contextual_orchestrator/cost_router.py:1979-1983 | with every count known, the grand total is the sum over all submitted parts |
| `EmbeddingDocument.WeightedAverageEmbedding` | contextual_orchestrator/cost_router.py:2111-2126 | the longest vector's dimension, each component the weighted mean with weights of at least one |
| `EmbeddingDocument.SumsOfOne` | contextual_orchestrator/cost_router.py:2111-2126 | one part's count, its weight of at least one, its weighted component and its dimension |
| `EmbeddingDocument.WeightsAppend` | contextual_orchestrator/cost_router.py:2111-2126 | weights and weighted components of two lists of parts add up |
| `EmbeddingDocument.AverageOfOne` | contextual_orchestrator/cost_router.py:2111-2126 | one part's average is its vector |
| `EmbeddingDocument.AverageOfTwo` | contextual_orchestrator/cost_router.py:2111-2126 | two parts are averaged by their token counts, the shorter vector continued by zeros |
| `EmbeddingDocument.AverageInHull` | contextual_orchestrator/cost_router.py:2111-2126 | each reduced component lies within any bounds of that component over the parts, missing ones counting as zero |
| `BatchRetrieval.RecordIdIsInjective` | contextual_orchestrator/cost_router.py:1352-1355 | within a job an id belongs to one custom id, kind and index whatever the custom id holds; across jobs too where job ids hold no NUL |
| `BatchRetrieval.JobIdsWithNulCollide` | contextual_orchestrator/cost_router.py:1352-1355 | a NUL inside a job id is enough for two jobs to share an id |
| `BatchRetrieval.DraftItem` | contextual_orchestrator/cost_router.py:1163-1266 | a cache hit records zero once; an item with a step that has counts one record per step, with that step's counts or unavailable; any other one record by its own counts, else its estimate, else unavailable |
| `BatchRetrieval.RetrieveBatch` | contextual_orchestrator/cost_router.py:1143-1284 | the ledger absorbs the drafts of all items in order, minus those whose append fails; once it holds every id of the batch its unavailable rows are masked |
| `BatchRetrieval.UnfailedDraftIsStored` | contextual_orchestrator/cost_router.py:1143-1284 | every draft whose append does not fail is in the ledger afterwards |
| `BatchRetrieval.LaterRetrievalsChangeNothing` | contextual_orchestrator/cost_router.py:1143-1284 | once a retrieval went through whole, any number of later ones leave the ledger as it is |
| `BatchRetrieval.RetrievalsStayWithin` | contextual_orchestrator/cost_router.py:1143-1284 | retrievals that fail in part keep every row in its place up to masking, add only ids of this batch, and store no id twice |
| `BatchRetrieval.EarlierRowsUntouchedIff` | contextual_orchestrator/cost_router.py:1273-1284 | a retrieval leaves the rows it finds untouched if and only if it does not settle or no unavailable one of them holds a count or a cost |
| `BatchRetrieval.EmptyRetrievalMasksEarlierRow` | contextual_orchestrator/cost_router.py:1273-1284 | a retrieval of nothing clears an earlier unavailable row and takes its tokens off the ledger's total |
| `BatchRetrieval.FirstRetrievalStoresEverythingIff` | contextual_orchestrator/cost_router.py:1143-1284 | the first whole retrieval stores every draft in order, unavailable ones masked, if and only if no two items record the same kind of usage under one custom id |
| `ArtifactPublication.LoneBackupIsCommitted` | contextual_orchestrator/nim_evidence.py:162-176 | a lone backup with no final directory is the committed set |
| `ArtifactPublication.FileSystem.RecoverPublication` | contextual_orchestrator/nim_evidence.py:153-176 | with a failure, interrupt or crash at any step the committed set is kept; a recovery that returns leaves it in the final directory; where no step fails it returns if and only if there is at most one backup |
| `ArtifactPublication.FileSystem.PublishArtifactSet` | contextual_orchestrator/nim_evidence.py:179-229 | at every point where it may stop the committed set is whole in one place; returning means the new set is final, raising that the old one is still the committed set, save for an interrupt after the commit rename; where no step fails it publishes if and only if the artifacts are valid and there is at most one backup; a single failure leaves the published directory as it was |
| `ArtifactPublication.Lifetime` | contextual_orchestrator/nim_evidence.py:153-229 | over any number of publications that return, raise, are interrupted or die, no set is lost or mixed |
| `MeasuredRouter.ModelGroupRouter.UpdatePrior` | contextual_orchestrator/model_group.py:143-177 | a new prior shifts the counts and leaves every observed outcome in place; a negative one is refused |
| `MeasuredRouter.ModelGroupRouter.ObserveSuccess` | contextual_orchestrator/model_group.py:179-261 | malformed input changes nothing; else counts, averages, the pruned deque and the maxima are again those of the history |
| `MeasuredRouter.ModelGroupRouter.ObserveFailure` | contextual_orchestrator/model_group.py:263-267 | one more failure, and nothing else |
| `MeasuredRouter.ModelGroupRouter.ResetMembers` | contextual_orchestrator/model_group.py:134-141 | exactly the reset members leave the table, and start again from their resolved prior with no history |
| `MeasuredRouter.ModelGroupRouter.ForgetMembers` | contextual_orchestrator/model_group.py:124-132 | exactly the members outside the kept set leave the table, the others keep everything |
| `MeasuredRouter.ModelGroupRouter.RankedMemberIds` | contextual_orchestrator/model_group.py:284-287 | the stable sort by score, failing exactly when some score does |
| `MeasuredRouter.AttemptIsRecordedIff` | contextual_orchestrator/model_group.py:199-222 | an attempt is recorded if and only if its latency is not negative and its token counts are positive |
| `MeasuredRouter.SuccessMovesTheRow` | contextual_orchestrator/model_group.py:231-248 | one more success; the averages move only with a latency, clamped at the floor, and throughput only with a token count too |
| `MeasuredRouter.NewestSampleHasTheGain` | contextual_orchestrator/model_group.py:234-248 | the first sample is the average; each later one enters with the gain |
| `MeasuredRouter.WeightOfOne` | contextual_orchestrator/model_group.py:255-261 | an observation counts one request and its own tokens |
| `MeasuredRouter.Prune` | contextual_orchestrator/model_group.py:249-254 | dropping stale entries from the left filters the deque |
| `MeasuredRouter.AverageStaysInHull` | contextual_orchestrator/model_group.py:231-248 | the moving average lies between two samples it has seen |
| `MeasuredRouter.RatesStep` | contextual_orchestrator/model_group.py:249-261 | pruning after one more observation gives the window over the full history, and the maxima stay the peaks |
| `MeasuredRouter.NoMinuteExceedsPeak` | contextual_orchestrator/model_group.py:249-261 | no sixty-second window ending at any instant exceeds the stored RPM or TPM |
| `MeasuredRouter.PeakIsReached` | contextual_orchestrator/model_group.py:249-261 | and some window attains it |
| `MeasuredRouter.ScoreFailsIff` | contextual_orchestrator/model_group.py:304-316 | for any prior, a registered member cannot be scored if and only if its prior and its number of outcomes add up to zero |
| `MeasuredRouter.ScoreMeans` | contextual_orchestrator/model_group.py:304-316 | one half without a row, the success share without a latency, else the share over the latency, at least the floor |
| `MeasuredRouter.SlowerScoresLower` | contextual_orchestrator/model_group.py:304-316 | of equal shares the slower member scores lower as soon as it exceeds the floor |
| `MeasuredRouter.ReliableScoresHigher` | contextual_orchestrator/model_group.py:304-316 | of equal latencies the larger success share scores higher |
| `MeasuredRouter.FailureLowersScoreIff` | contextual_orchestrator/model_group.py:304-316 | for any prior, the exact sign condition under which a failure lowers the score; with a non-negative prior, exactly a positive success mass |
| `MeasuredRouter.RankingIsStable` | contextual_orchestrator/model_group.py:284-287 | a permutation, best first, ties in the caller's order, unchanged when all scores agree |
| `ModelSelection.SelectModelGroupDiverseModels` | contextual_orchestrator/provider_bootstrap.py:269-310 | the loops compute the specified selection or its error |
| `ModelSelection.SelectionIsCostPrefix` | contextual_orchestrator/provider_bootstrap.py:233-310 | in terms of the cost order alone: an error where a group repeats among the first min(limit, number of groups) rows, another where the cutoff is tied, else exactly the first min(limit, n) rows |
| `ModelSelection.PickCountsGroups` | contextual_orchestrator/provider_bootstrap.py:287-297 | the group pass takes one row per group not yet seen, while there is room |
| `ModelSelection.EvidenceComparesCosts` | contextual_orchestrator/provider_bootstrap.py:212-231 | cost evidence compares the two prices' sums in comparable currency, a free row costing nothing, and puts unknown costs last |
| `ModelSelection.UniqueKeepsLast` | contextual_orchestrator/provider_bootstrap.py:281-285 | of the rows with one identity the last one counts |
| `ModelSelection.OrderedIsCostOrder` | contextual_orchestrator/provider_bootstrap.py:281-286 | the order holds served rows only, each identity once, by cost, then provider, then model id |
| `ModelSelection.ServedRowsAreOrdered` | contextual_orchestrator/provider_bootstrap.py:281-286 | and every served row that nothing replaces |
| `ModelSelection.ExcludedRowsAreDearer` | contextual_orchestrator/provider_bootstrap.py:233-266 | every selected row has a known cost, strictly below the known cost of every excluded one |
| `ModelSelection.DiscoveryOrderIsIrrelevant` | contextual_orchestrator/provider_bootstrap.py:212-310 | for distinct identities neither the error raised nor the selected rows depend on discovery order |
| `CostOrdering.CheapestCapabilityCandidate` | contextual_orchestrator/cost_router.py:428-443 | no candidate with a comparable price is cheaper; the first of the lowest-priced ones, or the first candidate when none is priced |
| `CostOrdering.CostOrderedCapabilityCandidates` | contextual_orchestrator/cost_router.py:445-465 | repeated-minimum selection equals the stable sort |
| `CostOrdering.CostOrderIsPermutation` | contextual_orchestrator/cost_router.py:428-465 | a permutation of the input, and the input itself when none is healthy |
| `CostOrdering.CostOrderRanks` | contextual_orchestrator/cost_router.py:428-465 | said of prices and posterior means: means of at least one half first, among those a comparable price before any higher one and before none |
| `CostOrdering.CostOrderKeepsTies` | contextual_orchestrator/cost_router.py:428-465 | in the whole order, candidates of one class (priced at one price, unpriced, unhealthy) keep rank order |
| `PiiProtection.ContextIsInjective` | contextual_orchestrator/pii_protection.py:119-131 | over all accepted inputs the context determines version, key name and field, the colon join and the JSON array included |
| `PiiProtection.ContextExistsIff` | contextual_orchestrator/pii_protection.py:119-131 | there is a context exactly for the two versions, a key name and a field that are not empty, and no colon in either for the first version |
| `PiiProtection.PlainContexts` | contextual_orchestrator/pii_protection.py:123-130 | the two layouts spelt out where nothing needs escaping |
| `PiiProtection.EscapedEndsOnce` | contextual_orchestrator/pii_protection.py:127-130 | a JSON string escaped as in section 7 of RFC 8259 can be read back whatever follows it |
| `PiiProtection.ColonsWouldCollide` | contextual_orchestrator/pii_protection.py:123-126 | without the colon check two legacy contexts coincide |
| `PiiProtection.FieldNamesOnce` | contextual_orchestrator/pii_protection.py:108-116 | declared names are accepted if and only if none is empty or reserved, and come out once each |
| `PiiProtection.DistinctNamesStay` | contextual_orchestrator/pii_protection.py:108-116 | names declared once each come out in their order |
| `PiiProtection.SealsIff` | contextual_orchestrator/pii_protection.py:161-177 | a field is sealed if and only if JSON can write it and key name and field are not empty |
| `PiiProtection.FirstFaultMeans` | contextual_orchestrator/pii_protection.py:161-177 | the reported fault is that of the first field that cannot be sealed |
| `PiiProtection.EncryptFields` | contextual_orchestrator/pii_protection.py:148-183 | each refusal in the source's order; else named fields leave and their envelopes arrive under the reserved key; it succeeds if and only if the names are usable, all there and all writable, the key has a name and the detail is not encrypted yet |
| `PiiProtection.DecryptFields` | contextual_orchestrator/pii_protection.py:185-216 | an unmarked detail unchanged, each metadata fault its error, and the fields restored if and only if every envelope opens |
| `PiiProtection.DeclaredFieldsComeBack` | contextual_orchestrator/pii_protection.py:148-216 | for every set of declared fields, decryption returns undeclared fields as they were and declared ones as JSON writes them |
| `PiiProtection.AsJsonKeepsIff` | contextual_orchestrator/pii_protection.py:164-170 | being written as JSON keeps a value if and only if it has no tuple and only string keys, at any depth |
| `PiiProtection.JsonIsSerialisable` | contextual_orchestrator/pii_protection.py:163-170 | every JSON value can be written |
| `PiiProtection.DeclaredFieldsRoundTripIff` | contextual_orchestrator/pii_protection.py:148-216 | with declared fields the round trip is exact if and only if each of them holds a JSON value |
| `PiiProtection.TupleAndNumberKeyComeBackChanged` | contextual_orchestrator/pii_protection.py:164-170 | two accepted values that are written as different ones |
| `PiiProtection.TupleDoesNotRoundTrip` | contextual_orchestrator/pii_protection.py:148-216 | a detail whose one declared field holds a tuple comes back with a list |
| `PiiProtection.MixedKeysAreNotSerialisable` | contextual_orchestrator/pii_protection.py:164-170 | a dictionary that mixes string keys with others is refused |
| `PiiProtection.RoundTripIff` | contextual_orchestrator/pii_protection.py:148-216 | over all inputs the round trip is exact if and only if every declared field holds a JSON value and, with none declared, the reserved key is unused or null |
| `PiiProtection.MovedEnvelopeIsRefused` | contextual_orchestrator/pii_protection.py:205-215 | an envelope opens under no other field, key name or version |
| `PiiProtection.SwappedFieldsAreRefused` | contextual_orchestrator/pii_protection.py:205-215 | a detail whose envelopes were exchanged does not decrypt |
| `Prelude.Utf8IsInjective` | contextual_orchestrator/pii_protection.py:126-130 | encoding a context as UTF-8 loses nothing |

## Left out

- HTTP serving, admin pages, CLI, credentials, logging and telemetry events: plumbing.
- Provider calls, Redis, sqlite and Postgres drivers: each is one atomic step that may fail; a rollback to a savepoint does not itself fail.
- `start()` is one atomic step of the job protocol; the two lemmas on its split form say what that leaves open. A worker thread that fails to start is not modelled.
- The registry mode without a durable store, where the lock is a process-local one.
- Retention expiry of registry rows. Liveness under a scheduler: what an undisturbed worker achieves is proved, not that it is left undisturbed.
- Rounding of latencies, vector components, scores and reported amounts.
- The tokenizer's native packing shortcut (contextual_orchestrator/cost_router.py:1648-1650): foreign code with no visible contract.
- Caller-owned Postgres transactions: the ledger sees only sqlite's.
- Migration of legacy ledger tables, and SQL row order; the currency of a rolled-up bucket is that of its first row in whatever order rows arrive.
- `PriceBook.compute_cost`, one multiplication per branch.
- The failure of an export sink itself, and the queueing store's health report.
- The publication lock file, file modes and symbolic link checks: publications run one at a time.
- Argument validation of a race, and its telemetry.
- The measured router's lock: each of its methods runs alone. Non-finite numbers cannot occur in reals.
- The result documents of `retrieve_batch`, and a ledger that stores in the background: over the list store a retrieval settles at once or not at all. Token counting there is a parameter of the item.
- Attribution and pricing of an embeddings document, and its cache; only vectors, token counts and totals are modelled.
- EmbeddingDocument.WeightedAverageEmbedding: does not round a component to eight decimals, because rounding is not what the reduction promises.
- PiiProtection.DecryptFields: does not tell apart the ways one envelope can be refused, because the metadata's order decides which is met first.
- LedgerStores.QueryRefinesList: states a multiset, because the order of SQL rows is left open.
- Key decoding and base64 of `pii_protection`. A dictionary in the shape of encryption metadata is kept apart from other dictionaries and counts as a JSON value; how text is laid out by the JSON writer is any function that reads back.
- Python's sort and dict comprehensions are functions.
