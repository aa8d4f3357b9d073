# Verification of the distributed ingestion runtime

This project models the part of the system that takes market-data messages from Kafka
partitions to PostgreSQL facts while workers crash, leases change hands and messages are
replayed, and proves what that part guarantees. SQL statements and transactions are atomic
steps on maps, a Kafka partition is a log plus a committed offset, and a goroutine hand-over
is one atomic step. `dafny verify dfyconfig.toml` checks everything.

## Layout

- `MarketModel`: the entities. `Sorting`: what the program relies on sorting for.
- `KlineGuard`, `DeltaGate`: the two small guards (candlestick revisions, delta monotonicity).
- `FactStore`: the fact tables and `WriteFactBatch`, as a value-level transaction and as a class.
- `Ingestion`, `IngestionProofs`, `IngestionDeltas`: the ingestion and commit protocol as a step
  machine with any number of workers on one input partition, its inductive invariant, and what
  follows for every run. `IngestionExact` gives the exact condition on the log for delta inputs,
  `IngestionOverlap` a run of two overlapping workers that stores deltas out of order.
- `FactLaws`, `StoredFacts`: what the replay, and with it every run, leaves in the trade, candlestick and
  delta tables, in terms of the messages' own fields.
- `InputWorker`: the input worker's loop, maps and pending slice updated in place; every operation is a
  protocol step on the partition it touches, so the class inherits the protocol's invariant.
- `OrderBook`, `OrderBookProofs`, `OrderBookArrival`, `OrderBookState`, `BookExport`: the in-memory
  book, its meaning as a fold over the event history, the arrival points of a snapshot, the class
  that runs it, and the sorted export. `BookLaws` says what an apply, a load and the contiguity check do,
  price by price and field by field.
- `SnapshotAck`: the acknowledgement handshake for reference snapshots, with any number of workers
  and consumers. `SnapshotOutcomes`: exactly which records it can commit past, and exactly when an
  acknowledged snapshot is safe.
- `DeltaFeed`, `BookFeed`: the way of a delta from the log through the table to the book.
- `Lease`, `InputManager`, `Ownership`, `Scheduler`: the lease statements, the input manager inside a
  group worker, the worker life cycle on top of both, and the capacity-bounded reconcile pass.
- `Deployment`: leases, group workers, input managers and the ingestion of one delta partition
  together.
- `Partitions`, `PartitionRuns`, `Pagination`, `Migrations`: store maintenance (one pass, and any run
  of writes and interrupted passes), query cursors, schema migrations.

The class methods state their whole effect in terms of a value-level function (`Write`,
`OnSnapshot`, `StartAll`, ...); what the program promises is proved about those functions and about
runs of them, and what those functions mean is stated in terms of the fields of their arguments
(`FactLaws`, `BookLaws`, `KlineGuard.StoredRow`, `Lease.RenewOutcome`, `Scheduler.PassRuns`, ...).

## Where the code and its documentation differ

The model follows the code.

- A poison record whose write fails is skipped, and the next commit passes its offset
  (`internal/runtime/input_worker.go:272-277`), although the log line says that the offset is not
  committed. `IngestionProofs.CommittedIsDurableOrDeadLettered` therefore assumes that no such
  write fails, and `IngestionProofs.FailedPoisonWriteIsCommittedPast` and
  `IngestionProofs.CommittedWithoutRow` show that the premise is needed.
- A snapshot that does not decode is skipped with the remark that it stays uncommitted and will be
  retried (`internal/runtime/snapshot_input_worker.go:91-103`). In fact any later good snapshot commits
  past it, unless a badly ordered one comes first: `SnapshotOutcomes.CommittedPastExactly` says for
  every log and offset when that can happen. A decodable snapshot whose sides are out of order blocks
  its input for good (`SnapshotAck.BadSnapshotBlocksInput`); one that is refused because the drain failed
  blocks only its session, and a restart gets past it (`SnapshotOutcomes.RestartGetsPast`).
- The page cursor is the key of the first row not returned while the next page takes strictly
  greater keys (`internal/storage/postgres.go:793`), so one row is lost at every page boundary,
  against the promise in `internal/storage/storage.go:23-26`. `Pagination` proves exactly which rows
  are lost, that nothing is lost if and only if everything fits on one page, and that a cursor taken
  from the last returned row would keep the promise.
- A snapshot that arrives too early resets the book when the next delta is stale, whereas a stale
  buffered delta is skipped; `OrderBookArrival.ArrivalPointIsIrrelevant`,
  `OrderBookArrival.EarlySnapshotIsLost`, `OrderBookArrival.LateSnapshotIsLost` and
  `OrderBookArrival.SnapshotAheadStands` split the arrival positions between them, and
  `OrderBookArrival.ArrivalIsRightExactly` draws the line.
- Waiting for the acknowledgement before the commit is said to prevent snapshot loss
  (`internal/runtime/snapshot_input_worker.go:118-119`). The apply and the reset of `onDeltaApplied` are
  separate locked sections, however, so a reset that comes late wipes a snapshot applied, acknowledged
  and committed in between. `SnapshotOutcomes.SurvivesExactlyWithoutOwedReset` says exactly when a snapshot
  is safe, `SnapshotOutcomes.AcknowledgedSnapshotCanBeWiped` gives a run in which it is not.
- Expired partitions are found through the registry only. A table that was created but not registered,
  because the pass was cut off between the two statements, is never dropped once its hour has passed
  (`PartitionRuns.CutOffPassLeaksRow`).
- The callback that feeds persisted deltas to the book is documented as running before the Kafka
  commit (`internal/runtime/worker.go:450-453`), but `flushBatch` calls it after the commit
  (`internal/runtime/input_worker.go:527-534`).
- Zero quantities are the texts "0" and "0.0" only (`internal/runtime/orderbook_state.go:209`).
- A delta cursor reloaded from the progress row decides like the live one only under a condition,
  which `DeltaGate.ReloadKeepsDecisions` gives exactly.

## Model

| member | source | states |
|---|---|---|
| IngestionProofs.StepKeepsInv | internal/runtime/input_worker.go:192-537 | Every fetch, write, commit, dead-letter, crash or restart step of any worker keeps: offsets at or below the commit are durable, dead-lettered or lost to a failed dead-letter write; cached durable offsets stay at or below the database one; every batch record matches the log |
| IngestionProofs.StepKeepsTables | internal/runtime/input_worker.go:381-537 | Every step keeps the tables equal to the in-order replay of the log up to the durable offset, and keeps every worker about to write exactly the next stretch of that replay |
| IngestionProofs.TablesAreReplay | internal/storage/postgres.go:42-120 | After any interleaving by any number of workers, trade and kline tables are the in-order insert-if-absent / guarded-upsert fold over offsets 0..durable (deltas too when every delta has a terminal id and no new maximum repeats the event id of the previous one), and no cached durable offset exceeds the database one |
| IngestionProofs.NothingCommittedIsLost | internal/runtime/input_worker.go:239-284 | After any run each offset at or below the committed one is a decodable message in the durable prefix, or is dead-lettered, or its dead-letter write failed; only undecodable messages are dead-lettered |
| IngestionProofs.CommittedIsDurableOrDeadLettered | internal/runtime/input_worker.go:481-517 | In every run where no dead-letter write fails, each committed offset is durable or dead-lettered |
| IngestionProofs.LostOnlyByFailure | internal/runtime/input_worker.go:263-277 | Offsets are lost only by a failed dead-letter write |
| IngestionProofs.FailedPoisonWriteIsCommittedPast | internal/runtime/input_worker.go:272-277 | Wherever the dead-letter write of an offset without a row fails and a decodable message follows, the worker can flush that message and commit past the undecodable offset, which has no row afterwards either |
| IngestionProofs.CommittedWithoutRow | internal/runtime/input_worker.go:263-284 | For every kind of input and every decodable message there is a run from the start that commits past an undecodable offset without a row |
| IngestionProofs.BatchIsValid | internal/storage/postgres.go:122-187 | Whatever mix of replayed and new records a worker holds, the batch it builds passes validation |
| IngestionProofs.EveryWriteIsAccepted | internal/runtime/input_worker.go:298-308 | In every run, every batch about to be written passes validation, so the write retry loop never spins on a validation error |
| IngestionProofs.RowsAreFold | internal/storage/postgres.go:431-573 | Splitting a batch by table, filtering each list by offset and writing it row by row has the effect of applying the new facts in arrival order |
| IngestionProofs.FoldIsReplay | internal/runtime/input_worker.go:450-482 | The new part of a batch is exactly the next stretch of the log's replay, whatever was replayed before it |
| IngestionProofs.GateIsMaximum | internal/runtime/sequence.go:11-42 | For regular deltas the gate admits a message exactly when it stands at the cursor's position and is a new maximum; whatever is read again from before the cursor is refused |
| IngestionProofs.WrittenCursor | internal/runtime/input_worker.go:473-478 | The delta cursor stored with a batch stands exactly at the batch's last offset |
| IngestionProofs.LoadedCursor | internal/runtime/input_worker.go:327-379 | The cursor loaded with progress stands where the read position needs it, wherever the session started |
| IngestionDeltas.ReplayRises | internal/runtime/sequence.go:11-25 | The replay stores deltas strictly increasing in terminal id, the last one being the high-water mark |
| IngestionDeltas.StoredDeltasRise | internal/runtime/input_worker.go:410-442 | With any number of overlapping workers the stored deltas are strictly increasing after every run, if every delta has a terminal id and no new maximum repeats the event id of the previous one |
| IngestionDeltas.SoloStep | internal/runtime/input_worker.go:410-480 | With one worker at a time, each step keeps stored plus pending deltas strictly increasing and covered by the cursor, with no premise on event ids |
| IngestionDeltas.SoloStoredDeltasRise | internal/runtime/input_worker.go:327-358 | Across all crashes, restarts and replays of one worker at a time, stored deltas strictly increase when every delta has a terminal id |
| FactLaws.ReplayOfTrades | migrations/000002_init_market_data.up.sql:35-36 | For every log: an offset has a row in the trade table of the replay if and only if a trade stands there whose exchange id is empty or occurs in no earlier trade, and the row is that trade |
| StoredFacts.TradesAfterAnyRun | internal/storage/postgres.go:470-490 | The same for the trade table after any run of any number of workers, up to the durable offset |
| FactLaws.ReplayedKline | internal/storage/postgres.go:492-528 | For every log and key the candlestick row in closed form: none without a message; the first closed message of the largest revision, if a closed one came that was not behind anything before it; else the last message of the largest revision |
| StoredFacts.KlineAfterAnyRun | internal/storage/postgres.go:492-528 | The same for the candlestick table after any run of any number of workers, over the messages up to the durable offset in log order |
| FactLaws.ReplayOfDeltasByField | internal/runtime/sequence.go:11-32 | For every log whose deltas all carry a last update id, the replay stores exactly those whose last update id is above every earlier one, in order and whatever the sequences; the same for sequences where no delta carries a last update id and all carry a sequence |
| StoredFacts.DeltasAfterAnyRun | internal/runtime/sequence.go:11-42 | The same for the delta table after any run of any number of workers, if no new maximum repeats the event id of the previous one |
| StoredFacts.SoloStoredRisesByField | internal/runtime/sequence.go:27-32 | Across all crashes and restarts of one worker at a time the stored last update ids strictly increase where every delta has one, and the stored sequences where none has |
| StoredFacts.RunKeepsOrigin | internal/runtime/input_worker.go:450-482 | Over every run of any number of workers every stored delta is the message at its offset |
| IngestionExact.TwinIsDropped | internal/runtime/sequence.go:34-42 | A new maximum that bears the event id of the previous one is read, flushed and never stored, while the durable offset moves past it |
| IngestionExact.DeltaTableIsReplayExactlyWithoutTwins | internal/runtime/sequence.go:11-42 | For a log whose deltas all carry a terminal id: every run of any number of workers has stored exactly the replay of the durable prefix if and only if no new maximum repeats the event id of the previous one |
| IngestionOverlap.OverlapCanBreakRising | internal/runtime/input_worker.go:517-517 | Terminal ids alone are not enough: a stalled owner and its successor, whose cached durable offset falls below the database's after a replay flush, store terminal ids 3, 5, 100, 6 |
| DeltaGate.ReloadKeepsDecisions | internal/runtime/sequence.go:11-42 | The cursor reloaded from progress takes every decision the live one takes if and only if the live one has a terminal id or no first update id |
| DeltaGate.AcceptedStrictlyIncreases | internal/runtime/sequence.go:11-32 | Whatever order and duplication arrives, the admitted deltas are strictly increasing in terminal id and above the starting cursor |
| DeltaGate.UnnumberedAreStored | internal/runtime/sequence.go:11-42 | Deltas without any number are all stored, whatever the cursor, if and only if none repeats the non-empty event id of the one before it |
| FactStore.ValidateRows | internal/storage/postgres.go:146-187 | Accepts exactly rows with the progress row's coordinates, offsets in the durable prefix, strictly increasing |
| FactStore.ValidateFactBatch | internal/storage/postgres.go:122-187 | Accepts exactly batches with valid progress, at most one kind of fact, and valid rows |
| FactStore.RowsAfterOffset | internal/storage/postgres.go:431-468 | Keeps, in order, exactly the rows beyond the durable offset and within the batch's prefix |
| FactStore.WriteIsIdempotent | internal/storage/postgres.go:42-120 | Writing a batch again after a lost acknowledgement changes nothing |
| FactStore.AcceptedBatchIsConfined | internal/storage/postgres.go:42-144 | An accepted batch changes at most one fact table and moves the durable offset to its own if that is larger; otherwise it changes nothing |
| FactStore.AcceptedDeltasAreStored | internal/storage/postgres.go:457-573 | The delta table keeps its rows and grows by exactly the batch's deltas beyond the durable offset |
| FactStore.PostgresStorage.WriteFactBatch | internal/storage/postgres.go:42-120 | Reports success exactly for valid batches; the partition's tables and progress become the value-level transaction's result; other partitions are untouched |
| FactStore.PostgresStorage.WritePoisonRecord | internal/storage/postgres.go:372-387 | Adds the dead-letter row and changes nothing else |
| KlineGuard.TableIsRowwise | internal/storage/postgres.go:492-528 | Upserting a sequence into the table is, key by key, the single-row history of that key |
| KlineGuard.StoredRow | internal/storage/postgres.go:504-521 | The row left by any list of messages: the first closed one of the largest revision if a closed one came that was not behind anything before it, else the last one of the largest revision |
| KlineGuard.OpenRowIsLastMessage | internal/storage/postgres.go:245-249 | While nothing is closed and revisions never go down the row is the last message, equal revisions included |
| KlineGuard.ClosedAndRevisionAreMonotone | internal/storage/postgres.go:504-521 | Over any write sequence a row never disappears or reopens and its revision never goes down |
| KlineGuard.ConvergesExactlyWhenDecided | internal/storage/postgres.go:504-521 | All orderings and duplications of a set of messages leave the same row if and only if one message beats every other |
| KlineGuard.WinnerIsStored | internal/storage/postgres.go:504-521 | A message that beats every other is what is stored, whatever the order |
| KlineGuard.WellRevisedConverges | internal/storage/postgres.go:504-521 | If revision and closedness determine content and no open revision exceeds the largest closed one, every ordering and duplication converges |
| InputWorker.InputWorker.constructor | internal/runtime/input_worker.go:134-157 | A new session on a sound database and broker starts with nothing pending and satisfies the protocol's invariant on every partition |
| InputWorker.InputWorker.EnsureProgress | internal/runtime/input_worker.go:327-379 | Loads durable offset and delta cursor once per partition, exactly as the protocol's load step, and touches no other partition |
| InputWorker.InputWorker.Prepare | internal/runtime/input_worker.go:381-448 | Gives the protocol's verdict on a message: replayed, undecodable, held back by the gate, or new; advances only this partition's cursor |
| InputWorker.InputWorker.BuildBatch | internal/runtime/input_worker.go:450-482 | The collected rows and progress are the protocol's batch for the pending records |
| InputWorker.InputWorker.WriteUntilAcked | internal/runtime/input_worker.go:480-496 | Retrying after failures that may or may not have taken effect leaves the database as after one write, and keeps the invariant even when cancelled |
| InputWorker.InputWorker.CommitUntilAcked | internal/runtime/input_worker.go:501-515 | Retrying commits keeps the invariant; on success the partition's committed offset is the batch's last |
| InputWorker.InputWorker.FlushBatch | internal/runtime/input_worker.go:450-537 | On success the batch is durable once, its last offset committed and remembered, the batch emptied; on cancellation the batch is kept; other partitions are untouched |
| InputWorker.InputWorker.Handle | internal/runtime/input_worker.go:237-310 | A decodable message joins the batch at its offset; only an undecodable new message is refused; the invariant is kept |
| InputWorker.InputWorker.DeadLetter | internal/runtime/input_worker.go:263-284 | Afterwards the offset is dead-lettered or recorded as lost, and newly committed only if it is dead-lettered |
| InputWorker.InputWorker.OneMessage | internal/runtime/input_worker.go:205-310 | One round of the loop, partition switches and early flushes included, keeps the invariant on every partition and the batch below its size |
| InputWorker.InputWorker.Consume | internal/runtime/input_worker.go:192-310 | However the loop ends (graceful flush, discard, cancellation mid-flush), on every partition all committed offsets are settled and the tables equal the replay of the durable prefix: trades and klines always, deltas on regular logs |
| OrderBookProofs.ReachableIsExplained | internal/runtime/orderbook_state.go:73-168 | Over every interleaving of snapshots, applies and resets: a ready book is the last ordered snapshot, an in-order stretch of the deltas taken before it and all deltas taken since, each contiguous with its predecessor, and nothing is buffered; otherwise the book is empty and the buffer is the last stretch of the deltas taken |
| OrderBookProofs.FailedDeltaChangesNothing | internal/runtime/orderbook_state.go:125-148 | A failed apply leaves the state as it was |
| OrderBookProofs.SequenceCountsDeltas | internal/runtime/orderbook_state.go:200-232 | With sequences throughout, the book's sequence is the snapshot's plus the number of deltas applied |
| OrderBookProofs.DrainedIsContiguous | internal/runtime/orderbook_state.go:239-280 | What a drain applies is a contiguous continuation of the snapshot taken from the buffer |
| OrderBookProofs.ReadyExactlyAfterLoad | internal/runtime/orderbook_state.go:73-168 | Over every interleaving a book is ready if and only if an ordered snapshot came in with no reset after it; so a late reset wipes whatever snapshot was applied before it |
| OrderBookArrival.DeliverIsPlay | internal/runtime/worker.go:454-469 | Uninterrupted callbacks are a history of applies, each failed one followed by a reset |
| OrderBookArrival.DeliverBuffers | internal/runtime/orderbook_state.go:125-139 | Without a snapshot the buffer holds exactly the last deltas, a full one being reset by the next |
| OrderBookArrival.ArrivalPointIsIrrelevant | docs/postgres-implementation-plan.md:829 | For consecutive sequenced deltas and a snapshot at q: every arrival position after all deltas up to q, with none above q lost from the buffer, ends in the snapshot folded with exactly the deltas above q |
| OrderBookArrival.EarlySnapshotIsLost | internal/runtime/worker.go:454-469 | If a delta at or below q is still to come, the snapshot is lost: the book is reset and only the last later deltas remain buffered |
| OrderBookArrival.LateSnapshotIsLost | internal/runtime/orderbook_state.go:109-148 | If deltas above q were lost from the buffer, the snapshot is loaded without any delta and the next delta resets it |
| OrderBookArrival.SnapshotAheadStands | internal/runtime/orderbook_state.go:239-280 | A snapshot that arrives last and above every delta stands alone |
| OrderBookArrival.ArrivalIsRightExactly | docs/postgres-implementation-plan.md:829 | The final book is the snapshot folded with the deltas above it if and only if none of those was lost from the buffer at its arrival and no delta at or below it is still to come |
| OrderBookState.OrderBookState.ApplyOne | internal/runtime/orderbook_state.go:200-232 | Succeeds exactly for a contiguous delta and then folds it in; otherwise changes nothing |
| OrderBookState.OrderBookState.DrainPending | internal/runtime/orderbook_state.go:239-280 | Applies the contiguous run after the stale head, empties the buffer, and reports success exactly when nothing remained |
| OrderBookState.OrderBookState.ApplySnapshot | internal/runtime/orderbook_state.go:73-119 | The state machine's snapshot step; the recorded reference and deltas explain the new book, also after a failed drain |
| OrderBookState.OrderBookState.TryApply | internal/runtime/orderbook_state.go:125-148 | The state machine's delta step with its outcome: applied, buffered, gap or buffer full |
| OrderBookState.OrderBookState.Reset | internal/runtime/orderbook_state.go:159-168 | Back to the empty state |
| OrderBookState.OrderBookState.OnDeltaApplied | internal/runtime/worker.go:454-469 | With nothing between its two locked sections, the delta step followed by a reset on failure |
| OrderBookState.OrderBookState.GenerateSnapshot | internal/runtime/orderbook_state.go:175-196 | A ready book is exported complete and sorted with its sequence; otherwise an empty snapshot |
| OrderBookState.ValidateBidAskOrder | internal/runtime/orderbook_state.go:395-409 | Accepts exactly non-increasing bids with non-decreasing asks |
| BookLaws.LevelsAt | internal/runtime/orderbook_state.go:208-223 | Price by price: a price that is not mentioned keeps its level, a mentioned one shows the quantity of its last mention, and a zero text deletes it |
| BookLaws.DeltaAt | internal/runtime/orderbook_state.go:200-232 | A delta's bids decide the bids and its asks the asks, price by price; its last update id replaces the book's, its sequence only if it has one |
| BookLaws.FoldAt | internal/runtime/orderbook_state.go:200-232 | After any list of deltas each side shows at each price the last word any of them had on it, or the starting level |
| BookLaws.LoadedAt | internal/runtime/orderbook_state.go:82-96 | A loaded side has at each price the last level whose quantity is not a zero text, or nothing |
| BookLaws.SnapshotAt | internal/runtime/orderbook_state.go:82-104 | A snapshot loads bids as bids and asks as asks, takes over the sequence and forgets the last update id |
| BookLaws.LoadOutcome | internal/runtime/orderbook_state.go:73-116 | Over any buffer an ordered snapshot drops the leading deltas whose sequence it covers, applies the rest up to the first that does not follow, and reports success if and only if all of it follows |
| BookLaws.ContiguousBySequence | internal/runtime/orderbook_state.go:341-359 | Deltas with sequences are contiguous if and only if they count up by one, from the book's sequence if it has one, whatever the update ids |
| BookLaws.ContiguousByFirstUpdateID | internal/runtime/orderbook_state.go:361-377 | Without sequences, deltas with first update ids are contiguous if and only if each begins one after the last update id before it, whatever the previous update ids |
| BookLaws.ContiguousByPreviousUpdateID | internal/runtime/orderbook_state.go:379-393 | With previous update ids alone, deltas are contiguous if and only if each names the last update id before it |
| BookLaws.ContiguousWithoutIDs | internal/runtime/orderbook_state.go:391-393 | Deltas that carry none of the three always follow |
| BookLaws.OrderedExactly | internal/runtime/orderbook_state.go:395-409 | A snapshot is accepted if and only if all earlier bids are at least as high and all earlier asks at most as high as the later ones |
| BookExport.ExportLevels | internal/runtime/orderbook_state.go:309-333 | A sorted listing of every non-zero level exactly once, whatever order the map iterates in |
| BookLaws.ExportRuns | internal/runtime/orderbook_state.go:309-333 | An exported side has each price once, bids from the highest down and asks from the lowest up |
| BookExport.ExportIsUnique | internal/runtime/orderbook_state.go:309-333 | When no two price texts are numerically equal, the export is independent of iteration order |
| BookExport.GeneratedSnapshotRestores | internal/runtime/orderbook_state.go:73-104 | A generated snapshot passes validation on a fresh state and restores bids, asks and sequence |
| BookExport.ReachableBookRestores | internal/runtime/orderbook_state.go:175-196 | Every reachable ready book survives export and reload, up to the last update id |
| SnapshotAck.StepKeepsInv | internal/runtime/snapshot_input_worker.go:71-143 | Every step of any consumer or worker keeps the handshake's invariant: `done` channels are closed exactly for successful applies, and offsets below a position are handled |
| SnapshotAck.CommittedOnlyAfterApplied | internal/runtime/worker.go:416-448 | In every interleaving an offset below the committed position was applied with success by a book, exactly unless it is undecodable |
| SnapshotAck.OneOutstanding | internal/runtime/snapshot_input_worker.go:111-141 | A consumer never has two unacknowledged snapshots, and has one only while waiting for it |
| SnapshotAck.BadSnapshotBlocksInput | internal/runtime/worker.go:427-437 | A decodable but badly ordered snapshot is never committed past and nothing behind it ever reaches a book, across all restarts |
| SnapshotAck.RefusedConsumerIsStuck | internal/runtime/snapshot_input_worker.go:118-124 | A consumer whose snapshot was taken but not acknowledged never moves again |
| SnapshotOutcomes.SurvivesExactlyWithoutOwedReset | internal/runtime/worker.go:416-469 | The snapshot in a ready book survives every continuation in which no delta fails if and only if no reset of an earlier failed apply is outstanding |
| SnapshotOutcomes.AcknowledgedSnapshotCanBeWiped | internal/runtime/worker.go:454-469 | A run from the start in which a snapshot is applied, acknowledged and committed and yet does not survive |
| SnapshotOutcomes.CommittedPastExactly | internal/runtime/snapshot_input_worker.go:71-143 | For every log, input and offset: some run commits past the offset if and only if a good snapshot stands at or after it with no badly ordered one before |
| SnapshotOutcomes.RestartGetsPast | internal/runtime/worker.go:429-437 | From every state, a new worker and session can commit any good snapshot from the committed position on that has no badly ordered one before it, whatever was refused earlier |
| BookFeed.BookTracks | internal/runtime/worker.go:454-469 | Over every sequence of snapshots and uninterrupted callbacks, a ready book whose last ordered snapshot was acknowledged is that snapshot folded with all deltas fed from some point on, in order |
| DeltaFeed.HandedIsStored | internal/runtime/input_worker.go:517-536 | In every run of any number of workers on a regular log, the deltas a session hands to `onDeltaApplied` are consecutive rows of the delta table, each once and in order, from the first one not stored when the session loaded progress |
| DeltaFeed.StepKeepsFeed | internal/runtime/input_worker.go:381-536 | Every step keeps: a session has handed over exactly what the replay stores from its horizon to its first unflushed message, and what it reads again from before the horizon carries nothing |
| DeltaFeed.BookIsSnapshotPlusStoredRows | internal/runtime/input_worker.go:527-534 | End to end: a ready book fed by a session, its last ordered snapshot acknowledged, is that snapshot folded with consecutive rows of the delta table up to the last row handed over |
| Lease.LeaseTable.TryAcquireGroupLease | internal/metadata/postgres.go:368-397 | Succeeds exactly for a positive ttl and a free, expired or own lease, which then ends a ttl from now; bumps the version, keeps the acquisition time only on re-acquisition; refuses otherwise and leaves all other groups alone |
| Lease.LeaseTable.RenewGroupLease | internal/metadata/postgres.go:403-423 | Succeeds exactly for a positive ttl and an own, unexpired lease; then the expiry is now plus ttl, the version one higher, owner and acquisition time unchanged; otherwise nothing changes |
| Lease.LeaseTable.ReleaseGroupLease | internal/metadata/postgres.go:427-434 | Deletes exactly an own row |
| Lease.AtMostOneHolder | internal/metadata/postgres.go:368-434 | Over every run with arbitrary ttls, tenures never overlap unless the earlier holder released, so there is at most one holder at any instant, and the row's owner is it until expiry |
| Lease.OnlyAcquisitionRevives | internal/metadata/postgres.go:403-423 | Without an acquisition an expired lease stays expired |
| Lease.AcquireOutcome | internal/metadata/postgres.go:368-397 | In the protocol too an acquisition changes the row exactly for a free, expired or own lease, to these fields |
| Lease.RenewOutcome | internal/metadata/postgres.go:403-423 | In the protocol too a renewal changes the row exactly for an own unexpired lease, to these fields |
| Lease.HeartbeatKeepsLease | internal/metadata/postgres.go:403-423 | A holder that renews with ttl t at intervals of at most t is the holder after every step, whatever other nodes attempt |
| Lease.VersionIdentifiesRow | internal/metadata/postgres.go:368-423 | While a row lives its version never decreases, and an equal version means the identical row |
| InputManager.StepKeepsInv | internal/runtime/input_worker.go:681-952 | Every step of the manager's loop and every exit of an input worker keeps: a running worker is in the active map or is being waited for, waits are for cancelled workers only, and what is left to drain is on the list |
| InputManager.DoneIsQuiet | internal/runtime/input_worker.go:690-719 | When the manager's `done` is closed, every input worker it ever started has exited, whatever reconcile the stop raced |
| InputManager.DoneIsFinal | internal/runtime/input_worker.go:702-719 | Nothing is started after `done` is closed |
| InputManager.OneRunPerInput | internal/runtime/input_worker.go:723-805 | At most one worker per input runs at any time, across restarts of exited ones |
| InputManager.OnlyDesiredRun | internal/runtime/input_worker.go:739-756 | Once a reconcile has stopped what it listed, and until it ends, every running worker is for an input it found desired |
| InputManager.VisitLeavesRunning | internal/runtime/input_worker.go:761-803 | A desired input that is visited and not held back has a running worker afterwards, a new one if and only if none was running |
| Ownership.StepKeepsInv | internal/runtime/worker.go:198-351 | Every timely step, a cancellation by the node's own context included, keeps: an active node holds the unexpired lease; the input manager's invariant; a terminal worker's manager is done |
| Ownership.AtMostOneActiveNode | internal/runtime/node.go:266-348 | In every timely run at most one node has a non-terminal worker for a group, and it holds the unexpired lease |
| Ownership.ReleaseOnlyAfterDrain | internal/runtime/node.go:300-348 | Under every interleaving of reconciling, exiting and stopping, a lease is given back only when every input worker started for the group has exited and its group worker is terminal |
| Ownership.OneConsumerPerInput | internal/runtime/input_worker.go:810-864 | In every timely run each input is consumed by at most one input worker in the whole deployment |
| Ownership.TerminalIsNeverLeft | internal/runtime/worker.go:338-351 | A terminal worker state is kept for as long as the node keeps the worker |
| Ownership.HeartbeatOutcome | internal/runtime/worker.go:276-303 | A heartbeat that reaches the database keeps the worker going and moves the expiry a ttl from now if the lease is in hand; otherwise the row is left alone, the worker drains towards the error state and its input manager is told to stop |
| Ownership.TimelyHeartbeatExtends | internal/runtime/worker.go:286-302 | In every timely run every heartbeat that reaches the database extends the lease |
| Ownership.LostLeaseFails | internal/runtime/worker.go:225-351 | Whatever happens later, timely or not, a worker that lost its lease never enters the lease loop again and can end only in the error state |
| Ownership.PassedExpiryBreaksExclusion | internal/runtime/node.go:266-296 | From the start: one node acquires and starts a worker, the clock passes the expiry, a second node does the same, and both are active |
| Deployment.StartsAlone | internal/runtime/input_worker.go:723-864 | In every timely run an input worker starts only when no other ingests its partition |
| Deployment.TimelyDeploymentStoresRisingDeltas | internal/runtime/node.go:266-348 | End to end: in every timely run of leases, group workers, input managers, crashes and ingestion steps at most one worker ingests the partition, and stored deltas strictly increase whenever every delta carries a terminal id |
| Deployment.TimelyDeploymentRisesByField | internal/runtime/sequence.go:27-32 | In every timely run of the deployment the stored last update ids strictly increase where every delta has one, whatever the sequences, and the stored sequences where none has |
| Scheduler.PlanReconcile | internal/runtime/reconcile.go:35-80 | Start candidates are exactly the runnable groups not run here, stops exactly the reverse, both sorted without repeats; start slots are what the kept groups leave free |
| Scheduler.StartAllBounds | internal/runtime/node.go:239-259 | The start loop respects slots and weight, and with a slot left every candidate was started, could not start, or exceeds the final weight |
| Scheduler.StartAllWeight | internal/runtime/node.go:235-259 | The running weight of the loop is the weight of the map it builds |
| Scheduler.NeverOverCapacity | internal/runtime/node.go:224-261 | Across every sequence of passes with any refusals, failures, deaths and listings the node stays within MaxGroups and MaxWeight |
| Scheduler.PassIsWorkConserving | internal/runtime/node.go:239-259 | With a slot still free, every runnable group not run here could not be started or would exceed the weight at the end of the pass |
| Scheduler.PassRuns | internal/runtime/node.go:224-261 | After a pass with a listing only listed groups run; every live listed group still does, unchanged; every other one could be started and carries its listed weight, at least 1 |
| Scheduler.PassPrefersEarlier | internal/runtime/reconcile.go:56-79 | Of two runnable groups that did not run, the one that sorts earlier is not passed over for the later one unless it is heavier or could not be started |
| Scheduler.StrLeAtFirstDifference | internal/runtime/reconcile.go:64-65 | The order of group ids is decided at the first difference |
| Scheduler.Node.constructor | internal/runtime/node.go:36-42 | Limits that are not positive become 10 groups and weight 100, others are kept; nothing runs yet |
| Scheduler.Node.ReconcileOnce | internal/runtime/node.go:224-261 | Prunes, plans, stops and starts exactly as a pass, and keeps the node within both limits |
| Scheduler.Node.CurrentWeight | internal/runtime/node.go:374-385 | The summed weight of the running workers |
| Partitions.PartitionManager.CreateAhead | internal/storage/partitions.go:112-118 | Adds exactly the hours from the current one to the boundary and loses nothing |
| Partitions.PartitionManager.DropExpired | internal/storage/partitions.go:120-152 | Drops exactly the registered partitions that end at or before the cutoff |
| Partitions.PartitionManager.MaintainAt | internal/storage/partitions.go:104-152 | One pass: creation up to the boundary, then dropping of what has expired |
| Partitions.PassGuarantees | internal/storage/partitions.go:104-181 | After a pass partitions are aligned and disjoint, cover every instant up to a boundary at or beyond the horizon, no dropped row was younger than the retention, and no remaining registered row is older than retention plus an hour |
| PartitionRuns.StepKeepsInv | internal/storage/partitions.go:104-218 | Every write, clock tick, single statement of a pass and interruption keeps the partitions well formed and the hours up to the last complete pass's boundary in place |
| PartitionRuns.WritesFindPartitions | internal/storage/partitions.go:52-218 | In every run with writes during passes and passes cut off anywhere: a write before the boundary of the last complete pass finds its partition, and no row is dropped before it reaches the retention |
| PartitionRuns.HorizonSuffices | internal/storage/partitions.go:89-118 | As long as every write comes less than the horizon after the start of a complete pass, no write is ever rejected |
| PartitionRuns.CompletePassBoundsAge | internal/storage/partitions.go:120-152 | Whenever a pass completes, every row in a registered partition is younger than the retention plus one hour |
| PartitionRuns.CutOffPassLeaksRow | internal/storage/partitions.go:166-180 | After a pass cut off between creating a table and registering it, and the end of that hour, a row in the table is never dropped, whatever follows |
| Pagination.ValidateQueryLimit | internal/storage/postgres.go:715-723 | A limit from 1 to 1000 is kept, a missing one becomes 200, a larger one 1000 |
| Pagination.Query | internal/storage/postgres.go:727-798 | Returns the first page of the matching rows after the cursor, with the key of the first row not returned as the next cursor |
| Pagination.PageHolds | internal/storage/postgres.go:727-798 | A page of an ordered table has exactly the rows of the group in the half-open time range, beyond the cursor by time and then secondary key, up to the next cursor if there is one, in ascending order; with a next cursor it is full and the row at that cursor belongs to the query |
| Pagination.AfterIsSuffix | internal/storage/postgres.go:802-864 | Whatever the cursor, the rows after it are a suffix of the matching rows |
| Pagination.CursorAdvances | internal/storage/postgres.go:868-931 | Each cursor leaves strictly fewer rows, so following cursors ends |
| Pagination.WalkSkipsBoundaryRows | internal/storage/postgres.go:727-798 | Following cursors returns the matching rows in key order without repeats, except exactly those at indices L, 2L+1, 3L+2, ... |
| Pagination.NothingSkippedExactlyOnOnePage | internal/storage/storage.go:23-26 | Nothing is skipped if and only if everything fits on one page |
| Pagination.LastRowWalkIsComplete | internal/storage/storage.go:23-26 | Taking the cursor from the last returned row would return every matching row, from any starting cursor |
| Migrations.LoadMigrations | internal/db/migrate.go:156-199 | Succeeds exactly when for every version the last up file and the last down file exist and are not blank, and then lists exactly one migration per version in strictly ascending order |
| Migrations.AddFilesFile | internal/db/migrate.go:162-184 | A version is present exactly if a file has it, under the first such file's name; its up script is the last up file, its down script the last down file, and empty if there is none |
| Migrations.Migrator.Up | internal/db/migrate.go:47-68 | Interrupted after any number of scripts, has applied and recorded exactly the first missing migrations in order |
| Migrations.Migrator.Down | internal/db/migrate.go:72-94 | Interrupted after any number of scripts, has undone and forgotten exactly the last recorded migrations in descending order |
| Migrations.UpKeepsPrefix | internal/db/migrate.go:47-68 | From a prefix, an `Up` interrupted anywhere leaves a prefix, longer by the scripts run |
| Migrations.DownKeepsPrefix | internal/db/migrate.go:72-94 | From a prefix, a `Down` interrupted anywhere leaves a prefix, shorter by the scripts run |
| Migrations.OpsKeepPrefix | internal/db/migrate.go:47-94 | Over any sequence of interrupted `Up` and `Down` runs from an empty database, the recorded versions are a prefix, the history of applied scripts is that prefix in order, and the schema is what it builds |
| Migrations.DownUndoesLastFirst | internal/db/migrate.go:72-94 | Whatever runs went before, `Down` undoes in exactly the reverse of the recorded order of application |
| Migrations.DownRestores | internal/db/migrate.go:72-94 | Whatever runs went before, a complete `Down` restores the initial schema and leaves nothing applied |
| Migrations.DownReversesExactlyFromPrefix | internal/db/migrate.go:47-94 | After any runs of an earlier release and a complete `Up` of a later one, `Down` reverses the recorded order of application if and only if what the earlier release left applied is a prefix of the later list |
| Migrations.DownsUndoUps | internal/db/migrate.go:47-94 | If each down script inverts its up script, undoing in reverse order restores the schema |

## Left out

- JSON decoding, flexible scalar types and input normalisation: decode plus validate is a fixed
  outcome per message (a fact or garbage).
- Numeric parsing of prices: an arbitrary function from text to a number; nothing is claimed about
  quantities that are zero in another spelling than "0" or "0.0".
- The override of the delta cursor by a reference snapshot
  (`internal/runtime/input_worker.go:350-363`): it can raise or lower the baseline.
- The "sequence" retry stage of the consume loop: unreachable, because `checkDeltaContinuity` never
  returns an error.
- Kafka rebalancing inside a session and gaps in offsets: an offset is a position in the log, and a
  session reads in order from the committed offset plus one.
- Status reports, metrics, lag, logging, HTTP handlers, configuration, cursor and stream-key
  formatting, migration file-name parsing: observability and plumbing. Secondary sort keys of
  pagination are ranks, cursors are key tuples, and a table given to a query is already in its
  `ORDER BY` order.
- The goroutines of `internal/runtime/worker.go`, `internal/runtime/snapshot_input_worker.go` and the input manager are
  step machines rather than classes with loops, since what matters about them is their
  interleaving; timeouts are arbitrary choices. Wall-clock limits of `Stop`, and deletion of a group
  while it is processed, are not part of this model.
- Integer widths: offsets, revisions and times are unbounded integers; none of the modelled code
  computes near the limits of 64 bits.
- The two snapshot columns that do not influence the book (input and group names) are only carried.
- IngestionProofs.TablesAreReplay: tables are kept per input partition. A trade id supplied by the exchange that
  occurs in two partitions is not a conflict here, and a candlestick whose key (group, source, interval,
  open time) is written from two partitions or inputs is not one row here. The delta table needs the
  condition that IngestionExact.DeltaTableIsReplayExactlyWithoutTwins shows to be exact.
- IngestionDeltas.StoredDeltasRise: the condition on event ids is exact for the table being the replay, not for the
  table being increasing: a log with a dropped delta may still rise in all runs of overlapping workers.
- InputWorker.InputWorker.Consume: the loop is any finite number of rounds, one consumer without concurrent owners;
  overlapping owners are covered by the step machine.
- InputManager.StepKeepsInv: why a desired input is not started (unsupported cluster, no consumer, a delta input held
  back until the book is ready again) is one choice; the flush flag of a stop is not kept.
- DeltaFeed.BookIsSnapshotPlusStoredRows: for one delta input feeding a book, on logs where the table is the replay, and
  with nothing between the two locked sections of a callback; what a late reset does is in SnapshotOutcomes.
- Ownership.AtMostOneActiveNode: assumes that the clock does not pass an expiry while its owner is active (from the
  acquisition on) and that no stop times out; Ownership.PassedExpiryBreaksExclusion shows the first is needed.
- Partitions.PassGuarantees: a table left unregistered by an interrupted pass is outside the bound on row age
  (PartitionRuns.CutOffPassLeaksRow), and the order of drops within one pass is not modelled.
- Scheduler.Node.ReconcileOnce: lease refusals and input-load failures of a pass are one set given in advance.
- SnapshotAck.CommittedOnlyAfterApplied: `applied` means that some worker's book took the snapshot successfully; the
  book itself is volatile and may be gone after a crash.
