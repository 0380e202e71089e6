# sqlstreams: verified model of the client protocols

sqlstreams is a log and queue over Postgres. This project models the Go protocols that run around its SQL and
proves what they promise. Every database call, clock reading, key-lease verdict and handler result is an answer the
model takes as it comes; nothing is assumed about it beyond what is listed under "Assumptions".

`dafny verify dfyconfig.toml` checks everything.

## What is modelled

**Claimed-range protocol of the message consumer** (`Chains`, `RangeValues`, `RangeState`, `ClaimBuffer`,
`RangeProtocol` and the other `Range*` files, `Session`). A claim of messages is split into queue entries, one per
unordered message and one chain per ordered key. `RangeState` and `ClaimBuffer` are the mutable classes of the source.
`RangeProtocol` is the concurrent part: one goroutine per queue entry and the shutdown goroutine, interleaved step by
step. Each outcome field, the done flag, the resolved counter, each look at the counter, the swap, each result of the
snapshot walk, each counted row and each removal is a step of its own. A run is any sequence of actions with any
outside answers, so the theorems hold for every interleaving. `RangeInvariant` says what each goroutine knows at each
place; `RangeSteps`, `RangeSafety` and `RangeHistory` show that every step keeps it; `RangeTheorems`,
`RangeOutcomes`, `RangeSettlement`, `RangeAccounts` and `Session` draw the conclusions.

**Produce batcher** (`Batches`, `BatchResolver`, `LockOrder`, `WorkQueue`). Batches are sorted in place by lock key.
The resolver attempts a batch against a database that may answer anything, and evicts, splits or fails until every
operation has its outcome. `LockOrder` lets any number of such transactions take their locks at once. `WorkQueue`
interleaves callers and workers.

**Alert history** (`Alert`), **retry arithmetic and loop** (`Retry`), **option resolution and lease sizing**
(`MessageOptions`, `LeaseSizing`), **pressure queue** (`PressureQueue`), **schedule keys and due schedules**
(`IdempotencyKey`, `Schedule`), **migration walk** (`Migration`). `Counting`, `Iteration`, `Sequences`, `ByteStrings`,
`Int64` and `Wrappers` hold what they share.

## What the model found

- An undeclared shutdown budget does not cover every started run: the run keeps the timeout it was claimed under, the
  budget is the ceiling at shutdown, and a refresh may have lowered it between (`BudgetCoversRun`,
  `BudgetMissesRefreshedRun`).
- The lease and coverage sums are unguarded int64 additions. A validated timeout near the largest duration makes them
  wrap; `LeaseIsLongEnough` and `StalenessIsExact` state exactly when they are right, `LeaseBornExpired` is a concrete
  group.
- A message's retry fields are resolved one by one, so a request for one of base delay and cap can leave the base above
  the cap. `ResolvedPolicyIsWellFormed` states exactly when, `BaseAboveCap` is a concrete case.
- `MaxDelays` is the one bounded retry field whose ceiling is not always enforced: a value left unset everywhere
  resolves to 0, which caps nothing, and 0 is below any ceiling. `DelayCeilingBinds` states exactly when the ceiling
  binds, `DelayCeilingMissed` is a concrete group that misses it.
- An alert's gap may be the longest duration when pending is disabled. A newest sample older than that still counts as
  fresh, because the subtraction saturates, but the window does not read it. `WindowLosesNothing` states that this is
  the only case in which the window changes a decision, `OldestFreshIsMissed` is a concrete one.
- The staleness test of `closeRange` changes nothing: a stale range has always been dispatched
  (`StaleTestIsRedundant`).
- Idempotency keys keep 48 bits of the time and order ids as unsigned. `KeyOrderAsStored` gives the order and the
  collisions for all inputs, `KeyOrder` the promised order on the inputs where it holds.
- The comment on `processChain` lists failed, delayed, deferred and unresolved predecessors as those that stop a
  chain. The code also stops it behind a superseded one; the model follows the code.

## Assumptions

- Claimed message ids are strictly increasing and above the lease's low bound, and lease tokens are unique.
- No delivery row is written twice, as the primary key of the exception queue has it: a full commit that lands after
  a partial one, which keeps the lease, finds that the partial one wrote none. Only the accounting theorems use it
  (`RowsWrittenOnce`). A commit has landed when it was reported to have.
- A successful batch append returns one result per request, and a failed index is below the batch size.
- A schedule's next time, if there is one, is later than the time it is asked for.
- A migration log's last recorded version is at least 1.

## Model

| member | source | states |
|---|---|---|
| RangeTracking.RangeState.Resolve | pkg/consume/messageconsumer/range_state.go:63-69 | after the field writes and the done store the result is exactly the resolution, every other result is as before, and one more is counted |
| RangeTracking.RangeState.OutcomeOf | pkg/consume/messageconsumer/range_state.go:131-137 | a kind is handed out exactly for a done result |
| RangeTracking.RangeState.TryGetSnapshot | pkg/consume/messageconsumer/range_state.go:146-155 | a premature call does not spend the snapshot, a second call does not get it, the one that does gets every outcome |
| RangeTracking.RangeState.ContiguousResolved | pkg/consume/messageconsumer/range_state.go:169-182 | the walk yields watermark and outcomes of the longest resolved prefix |
| RangeTracking.RangeState.ResolvedOutcomes | pkg/consume/messageconsumer/range_state.go:186-193 | the walk collects every result |
| RangeTracking.PrefixIsUnique | pkg/consume/messageconsumer/range_state.go:157-168 | only one prefix is all done and followed by an unresolved result or the end |
| RangeValues.CollectReports | pkg/consume/messageconsumer/range_state.go:186-206 | an outcome is collected exactly if it is that of a reported message, successes only where the claim wants them |
| RangeValues.CollectInOrder | pkg/consume/messageconsumer/range_state.go:184-193 | outcomes come in message order, each once, none above the watermark |
| ClaimBuffers.ClaimBuffer.Add | pkg/consume/messageconsumer/claim_buffer.go:64-103 | the range is tracked before anything is queued; the queue grows by the heads of linked, complete chains, or by the first of them if the context ends |
| ClaimBuffers.ClaimBuffer.QueueSingles | pkg/consume/messageconsumer/claim_buffer.go:78-91 | unordered messages are queued in claim order, ordered ones collected by key in claim order |
| ClaimBuffers.ClaimBuffer.QueueChains | pkg/consume/messageconsumer/claim_buffer.go:93-101 | each chain is linked front to back, and only its head queued |
| ClaimBuffers.ClaimBuffer.WaitForNext | pkg/consume/messageconsumer/claim_buffer.go:117-128 | the head of the queue leaves it, and exactly its own range, if still tracked, counts a dispatch |
| ClaimBuffers.ClaimBuffer.Resolve | pkg/consume/messageconsumer/claim_buffer.go:162-168 | a tracked range stores the resolution with the message's resolved policy; a settled one is fenced |
| ClaimBuffers.ClaimBuffer.MarkStale | pkg/consume/messageconsumer/claim_buffer.go:194-197 | one caller at most is told that it made a tracked range stale |
| ClaimBuffers.ClaimBuffer.RemoveAll | pkg/consume/messageconsumer/claim_buffer.go:207-217 | every tracked range is handed out, once, and none stays tracked |
| Chains.SinglesAre | pkg/consume/messageconsumer/claim_buffer.go:85-90 | each unordered message is queued by itself, once, in claim order |
| Chains.KeyChainIs | pkg/consume/messageconsumer/claim_buffer.go:78-84 | a key's chain holds exactly its ordered messages, once, in claim order |
| Chains.EntriesSplit | pkg/consume/messageconsumer/claim_buffer.go:78-101 | in any order of the keys the entries partition the claim: every message at one place, chains of one key in claim order, no key in two chains |
| RangeLinks.AddQueuesSplit | pkg/consume/messageconsumer/claim_buffer.go:64-103 | what `add` leaves in the queue, cut short or not, is a prefix of such a split, so it is a range of the protocol |
| RangeLinks.ResolutionIsOneCall | pkg/consume/messageconsumer/range_state.go:125-128 | undisturbed, the six micro-steps of a resolution are one call of the range state's resolve |
| RangeProtocol.DispatchStep | pkg/consume/messageconsumer/consumer_runner.go:257-303 | the steps from the queue to the staleness check, which touch no result and no counter of outcomes |
| RangeProtocol.RunStep | pkg/consume/messageconsumer/consumer_runner.go:323-374 | the steps of key lease, payload and handler, which touch only the sets of messages counted at resolution |
| RangeProtocol.ResolveStep | pkg/consume/messageconsumer/claim_buffer.go:162-168 | the steps of one resolution: look up, four field writes, done store, count |
| RangeProtocol.SnapshotStep | pkg/consume/messageconsumer/consumer_runner.go:310-319 | the steps of the two checks and the one-shot swap |
| RangeProtocol.CommitStep | pkg/consume/messageconsumer/consumer_runner.go:394-410 | the steps of the snapshot walk, the commit's answers, the counting of rows and the removal |
| RangeProtocol.ChainStep | pkg/consume/messageconsumer/consumer_runner.go:280-293 | the steps that read the outcome and go on, stop, or defer what is behind |
| RangeProtocol.ShutdownStep | pkg/consume/messageconsumer/consumer_runner.go:115-140 | the steps that fence, surrender, sweep and settle a range |
| RangeSafety.StepKeepsInv | pkg/consume/messageconsumer/range_state.go:81-101 | every step of any goroutine keeps what all goroutines know and what counter, flags and snapshot say |
| RangeTheorems.ReachHolds | pkg/consume/messageconsumer/consumer_runner.go:69-90 | every state that any interleaving with any outside answers reaches satisfies the invariants |
| RangeTheorems.ResultsAreFinal | pkg/consume/messageconsumer/range_state.go:81-84 | a done result never changes again, in any continuation of any run |
| RangeTheorems.ResolvedOnce | pkg/consume/messageconsumer/claim_buffer.go:162-168 | no result is resolved twice, and no two goroutines ever resolve the same message |
| RangeTheorems.CounterReachesTotal | pkg/consume/messageconsumer/range_state.go:139-142 | the counter reaches the total exactly when every result is done and counted |
| RangeTheorems.SnapshotOnce | pkg/consume/messageconsumer/range_state.go:144-155 | in every interleaving at most one snapshot is handed out, only when every result is done, holding all final outcomes |
| RangeTheorems.NoneStranded | pkg/consume/messageconsumer/consumer_runner.go:309-319 | with no resolver in flight, a tracked, fully resolved range has had its snapshot taken |
| RangeTheorems.ChainsKeepShape | pkg/consume/messageconsumer/consumer_runner.go:276-293 | along each chain: messages that succeeded or died, one that is anything else, then only deferred or unresolved ones whose handler never started |
| RangeTheorems.OrderedHandlers | pkg/consume/messageconsumer/consumer_runner.go:276-293 | a handler starts only after every earlier ordered message of its key in the range succeeded or died, and no two of them run at once |
| RangeTheorems.HandlersStartOnce | pkg/consume/messageconsumer/consumer_runner.go:280-303 | no message's handler starts twice |
| RangeOutcomes.OutcomesAreTrue | pkg/consume/messageconsumer/consumer_runner.go:323-374 | a recorded success or delay had its handler started, a superseded or deferred message never did |
| RangeSettlement.SweepEndsAtPrefix | pkg/consume/messageconsumer/range_state.go:157-182 | the shutdown walk ends at exactly the longest resolved prefix of that moment, even if stragglers resolve during it |
| RangeSettlement.SweepAgreesWithSnapshot | pkg/consume/messageconsumer/range_state.go:184-193 | with every result done the settlement is what a full commit would report |
| RangeSettlement.PartialCommitCoversResolved | pkg/consume/messageconsumer/consumer_runner.go:412-442 | a landed partial commit's watermark covers resolved messages only, and it reports exactly their final outcomes |
| RangeSettlement.SurrenderedIsPristine | pkg/consume/messageconsumer/consumer_runner.go:121-134 | a range is force-reclaimed only if none of its messages was run, written or counted |
| RangeSettlement.StaleTestIsRedundant | pkg/consume/messageconsumer/consumer_runner.go:121-122 | stale implies dispatched, so a range is surrendered exactly when nothing of it was dispatched |
| RangeAccounts.AccountsBalance | pkg/consume/messageconsumer/consumer_runner.go:444-458 | in every reachable state in which no delivery row was written twice, each session counter is the number of messages in its bucket, and what they lack of the claim is exactly the messages not counted yet |
| RangeAccounts.LandedIsCounted | pkg/consume/messageconsumer/consumer_runner.go:394-409 | once a commit of the whole range has landed, at its resolution or as the retry at shutdown, no message of it is left uncounted |
| Session.SessionCounters.CountDeliveryRows | pkg/consume/messageconsumer/consumer_runner.go:444-458 | the loop adds to ready, deferred and dead the numbers of rows of those sorts, and to nothing else |
| Session.TallyIsTheLoop | pkg/consume/messageconsumer/consumer_runner.go:444-458 | undisturbed, the protocol's counting steps of a full commit add what that loop adds |
| Session.CountingIsTheLoop | pkg/consume/messageconsumer/consumer_runner.go:440-458 | and so do those of a partial commit |
| Session.SessionBalances | pkg/consume/messageconsumer/consumer_runner.go:190-205 | over all ranges of a session, however they interleave: claimed is the sum of the outcome counters and of the messages not counted yet |
| Session.LandedSessionBalances | pkg/metric/producer/producer.go:249-283 | when a commit of every claimed range landed, at its resolution or at shutdown, everything claimed is in one of the five outcome counters |
| Batches.Operation.Record | pkg/produce/batcher/operation.go:55-58 | an outcome is recorded on an operation that has none; the precondition is the panic |
| Batches.NewBatch | pkg/produce/batcher/batch.go:15-23 | the slice is sorted in place to the batch order of what it held |
| Batches.SortedIsSorted | pkg/produce/batcher/batch.go:15-23 | the batch order ascends by key |
| Batches.SortIsStable | pkg/produce/batcher/batch.go:19-21 | sorting keeps the operations of each key, all of them and in order |
| Batches.SortIsUnique | pkg/produce/batcher/batch.go:19-21 | there is only one stable sort by key, so the library's algorithm does not matter |
| Batches.Remove | pkg/produce/batcher/batch.go:37-41 | the batch without one operation, sorted, in the same order |
| Batches.Single | pkg/produce/batcher/batch.go:43-46 | a batch of one operation |
| BatchResolver.Database.AttemptBatch | pkg/produce/batcher/resolve.go:54-68 | a request refused while the appends are built fails the attempt with no index, before the database sees it |
| BatchResolver.RecordAll | pkg/produce/batcher/batch.go:48-52 | every operation gets the outcome, none twice |
| BatchResolver.ResolveBatch | pkg/produce/batcher/resolve.go:21-52 | terminates; at most size+1 attempts, 1 for a single operation; every operation gets the outcome of the last attempt that held it, success exactly if that one committed it and no earlier one did; nothing outside the batch is written |
| BatchResolver.ResolveDequeued | pkg/produce/batcher/batcher.go:109-120 | the same for what a worker dequeued |
| BatchResolver.OutcomesAreOwn | pkg/produce/batcher/resolve.go:74-96 | if failures that are neither transient nor a deadline are attributed or seen alone, every operation gets its own verdict or a transient or deadline failure: no message's poison reaches another; and its own verdict if no attempt failed that way |
| BatchResolver.JudgingIsolates | pkg/produce/batcher/resolve.go:74-96 | a database that judges messages by content is of that kind |
| BatchResolver.JudgingDatabase | pkg/produce/batcher/resolve.go:81-95 | such a database exists for every judgement, and answers as an append may |
| BatchResolver.OnePoison | pkg/produce/batcher/resolve.go:81-89 | an instance: of any batch against a database that rejects one message, that one alone fails, with its error |
| BatchResolver.AttemptsKeepOrder | pkg/produce/batcher/batch.go:15-46 | every batch ever attempted is sorted, and keeps the dequeue order of each key through evictions and splits |
| LockOrder.NoWaitCycle | pkg/produce/batcher/batch.go:15-23 | no run of any number of batch transactions reaches a wait-for cycle |
| LockOrder.SomeoneMoves | pkg/produce/batcher/batch.go:15-23 | while any transaction is unfinished, some unfinished one is not waiting |
| LockOrder.AttemptsLockInOrder | pkg/produce/batcher/resolve.go:21-52 | every attempt of a resolved batch starts with its locks in that order |
| WorkQueues.WorkQueue.NeedsWorker | pkg/produce/batcher/queue.go:19-30 | a worker is granted, and counted, to an idle queue or under backlog below the limit |
| WorkQueues.WorkQueue.Dequeue | pkg/produce/batcher/queue.go:32-45 | up to max items leave from the front; an empty queue signs the worker off |
| WorkQueues.NeverStranded | pkg/produce/batcher/queue.go:32-39 | in every interleaving a non-empty queue has a live worker or a caller that has not asked yet |
| WorkQueues.WorkersAreCounted | pkg/produce/batcher/queue.go:19-30 | the worker count is the number of spawned, unexited loops and never exceeds the limit |
| WorkQueues.OneHomeEach | pkg/produce/batcher/batcher.go:66-74 | operations leave in the order they came, each in exactly one of queue, one worker's batch, recorded |
| WorkQueues.QuietMeansRecorded | pkg/produce/batcher/batcher.go:108-120 | once every caller has asked and every worker has exited, every enqueued operation is recorded, once |
| AlertEvaluation.EvaluateHistory | pkg/alert/evaluation/history.go:13-107 | all branches and the walk give the evaluation by the maximal run |
| AlertEvaluation.ActiveMeansLongRun | pkg/alert/evaluation/history.go:72-106 | active if and only if some unbroken active run in the window spans the pending duration; UnhealthySince is the earliest time of any such run |
| AlertEvaluation.WindowLosesNothing | pkg/alert/job_payload.go:50-62 | a valid policy's window is an int64; for every history the evaluation of the samples of the window is an error, or has the state and finding, as the one of the whole history without a window: exactly unless the newest sample is conclusive, older than a duration holds, and the gap is the longest |
| AlertEvaluation.OldestFreshIsMissed | pkg/alert/evaluation/history.go:34-47 | such a sample: fresh to the saturated subtraction, and outside every window |
| AlertEvaluation.TimeAloneDecidesNothing | pkg/alert/evaluation/history.go:11-12 | while the newest sample's age is within the gap, the evaluation, errors included, does not depend on its time |
| Retry.DelayCompounds | pkg/common/retry_policy.go:47-55 | the curve starts at the base delay and each next delay is the one before times the exponent, capped |
| Retry.CalculateTotalDelay | pkg/common/retry_policy.go:57-70 | the early exit computes the plain sum of the delays |
| Retry.Validate | pkg/common/retry_policy.go:103-150 | accepts a policy if and only if its fields are in range and its plain sum is an int64 |
| Retry.Wrap | pkg/common/retry_datastore.go:49-88 | at most MaxRetries calls, sleep at most the total, success exactly if the last call succeeded, all errors in order, and when the loop may stop early |
| Retry.SleepIsInt64 | pkg/common/retry_policy.go:134-149 | a validated policy's partial sums and delays are int64 |
| LeaseSizing.TimeoutIsCapped | pkg/consume/messageconsumer/consumer_config.go:74-79 | whatever a message asks for, its resolved timeout is at most the ceiling, which always exists |
| LeaseSizing.ResolvesWithinBounds | pkg/consumer/consumer_config.go:104-142 | in a validated group every message resolves within the bounds in timeout, retries, base, cap and exponent |
| LeaseSizing.RequestsAreHonoured | pkg/common/message_options.go:38-97 | within the bounds a request stands, an unset field takes the group's default, one outside moves to the bound it crossed; and the order of concurrency sources |
| LeaseSizing.DelayCeilingBinds | pkg/common/message_options.go:207-226 | exactly when a MaxDelays ceiling binds |
| LeaseSizing.DelayCeilingMissed | pkg/common/message_options.go:207-226 | a validated group with a ceiling of two delays that admits a third |
| LeaseSizing.LeaseIsLongEnough | pkg/consume/messageconsumer/consumer_runner.go:156-161 | every message dispatched within the queue margin of a fresh claim is started and its run, grace and record margin end by lease expiry: exactly when the lease's sum is an int64 |
| LeaseSizing.LeaseBornExpired | pkg/consume/messageconsumer/consumer_runner.go:158-161 | a group that validates and whose lease duration wraps negative |
| LeaseSizing.StalenessIsExact | pkg/consume/messageconsumer/consumer_runner.go:295-307 | the staleness test starts exactly the covered messages, at all times, exactly when what the message needs is an int64 |
| LeaseSizing.BudgetCoversRun | pkg/consume/messageconsumer/consumer_config.go:151-159 | an undeclared budget covers a run exactly when the run's timeout, resolved as claimed, is within the ceiling at shutdown and that ceiling's sum is an int64 |
| LeaseSizing.BudgetMissesRefreshedRun | pkg/consume/messageconsumer/consumer_runner.go:95-112 | a run claimed under ten minutes that a budget refreshed to the defaults does not cover |
| LeaseSizing.ResolvedPolicyIsWellFormed | pkg/common/message_options.go:175-226 | exactly when a resolved retry policy is well formed: the cap in force reaches the base in force |
| LeaseSizing.PlainRequestsAreWellFormed | pkg/common/message_options.go:175-226 | a request for neither delay, or for both without a floor under the base, always resolves to a well-formed policy |
| LeaseSizing.BaseAboveCap | pkg/common/message_options.go:207-226 | a valid group and request that resolve to a base above the cap |
| PressureQueues.PressureQueue.EnQueue | pkg/common/concurrency/queue.go:60-68 | work joins the end of a queue with room, and never exceeds its capacity |
| PressureQueues.PressureQueue.DeQueue | pkg/common/concurrency/queue.go:70-86 | the first item leaves, and a signal is buffered |
| PressureQueues.FirstInFirstOut | pkg/common/concurrency/queue.go:16-32 | in every interleaving the queue stays within its capacity and items leave in the order they came |
| PressureQueues.NoLostWakeUp | pkg/common/concurrency/queue.go:39-86 | whenever the filler sleeps with enough room, a signal is buffered or about to be offered, and waking on it succeeds |
| IdempotencyKeys.IdempotencyKey | pkg/schedule/idempotency_key.go:21-44 | the byte-wise fill is the key's layout |
| IdempotencyKeys.DecodeKey | pkg/schedule/idempotency_key.go:14-20 | time and id come back from the key |
| IdempotencyKeys.KeyOrder | pkg/schedule/idempotency_key.go:14-20 | for 48-bit times and non-negative ids, byte order of keys is the order of (time, id), and equal keys mean equal requests |
| IdempotencyKeys.KeyOrderAsStored | pkg/schedule/idempotency_key.go:21-44 | the order and the collisions of any two keys |
| IdempotencyKeys.VersionAndVariant | pkg/schedule/idempotency_key.go:31-35 | the version and variant bits of section 5.7 of RFC 9562 |
| Schedules.Schedule.ProduceDue | pkg/schedule/producer/instance.go:95-163 | the catch-up loop terminates at the newest due time; its message is stored unless it is a duplicate; the row is then due after the transaction's time or suspended; a failure changes nothing |
| Schedules.NewestIsOne | pkg/schedule/producer/instance.go:111-118 | there is only one newest due time |
| Schedules.ProducesStaysAhead | pkg/schedule/producer/instance.go:151-162 | what is still due lies after the transaction's time and after everything produced |
| Schedules.ProducedTimesClimb | pkg/schedule/producer/instance.go:95-100 | over any sequence of transactions, under any clock and with any duplicates, produced times and stored messages strictly increase |
| Schedules.NothingToComeIsSkipped | pkg/schedule/producer/instance.go:111-118 | over any sequence of transactions a calendar's times are passed along one chain: each settles the last not after its time and leaves the row due at the one that follows |
| Migrations.Validate | pkg/migrate/migration.go:47-61 | accepts exactly the contiguous registries with bounded requirements |
| Migrations.Owner.RunMigration | pkg/migrate/controller/step.go:13-49 | a step lands at its target version with its own script, or changes nothing |
| Migrations.MigrateOwner | pkg/migrate/controller/controller.go:107-138 | every index is in bounds; exactly the steps between are applied, once and in order; the walk stops at the first failure, at the last version that landed |
| Migrations.WalksAreExact | pkg/migrate/controller/controller.go:117-136 | a walk, up or down, passes every version between its ends once, in order |
| Migrations.UpThenDownRestores | pkg/migrate/controller/controller.go:117-136 | rolling back a walk up restores the schema whenever each Down undoes its Up |

## Left out

- All SQL: claims, commits, key leases, cursor advance, compaction heads and partitions are answers of an arbitrary
  database under the assumptions above.
- The exception consumer: its attempt counter advances in SQL, so a bound on its runs would rest on a guess.
- Transactions outside the batcher in the deadlock theorem (`ProduceBatch`, `ProduceInTx`, alert records): they do not
  go through a sorted batch.
- RangeTheorems.OrderedHandlers: speaks of one claimed range; order across ranges is kept by the key-lease SQL.
- RangeProtocol.DispatchStep: taking an entry's lookup and dispatch count is one step; a map access under its lock is
  atomic, the removal of all ranges at shutdown included.
- RangeProtocol.RunStep: the key lease's release after a run is not a step; no result depends on it.
- RangeAccounts.AccountsBalance: int64 wrap-around of the session counters is not modelled.
- Batches.Remove: what is left of a batch is a sequence, sorted again in a slice of its own.
- BatchResolver.ResolveBatch: the transient retries inside one append belong to the database's answer; an attempt is
  one call of the controller.
- WorkQueues.NeverStranded: a caller that stops waiting for its outcome is not modelled; it does not touch the queue.
- AlertEvaluation.EvaluateHistory: times are integers, of which one stands for the zero time; error texts are not those
  of the source.
- Retry.DelayCompounds: delays are exact integers; floating-point rounding of the power is not modelled.
- Retry.Wrap: jitter-free sleeps are counted as requested; how long they take is the clock's.
- LeaseSizing.RequestsAreHonoured: in-place defaulting of shared option structs is modelled on values; so the change
  detection of a config refresh, which rests on that sharing, is left out.
- PressureQueues.NoLostWakeUp: WaitForRoom's loop is three kinds of steps of the filler; its timer and context may end
  the wait at any time.
- IdempotencyKeys.IdempotencyKey: a byte or-ed with bits it does not have is modelled as a sum.
- Migrations.MigrateOwner: a failed step changes nothing; a step without a transaction that stops half-way is not
  modelled, and neither is the loop over all streams.
- Clocks, goroutine abandonment, panics in handlers, logging, metrics export, client handles, admin and CLI wrappers,
  provisioners, the cron parser and UUID hashing.
