# Task ledger, result log and routing: verified model

stateflux moves tasks through a ledger of four stage tables (pending, schedulable,
processing, completed) and three side tables (identities, payloads, results). Executors write
results to a local write-ahead log before publishing them. Nodes relay calls to each other and
share a queue assignment. This project models these parts in Dafny and proves what they
promise over whole runs.

`dafny verify dfyconfig.toml` checks everything.

## How the model is built

**Ledger.** `Rows` has the rows and the column-by-column copies. `LedgerTx` is the tables as a
value and every operation as a transaction on it: the new tables, or an error that rolls back.
`Query`, `Orders` and `LedgerStore` are the imperative store; each method is proved to commit exactly its
transaction. `TaskView` is the per-task automaton and the table invariant; `Protocol` the steps
of schedulers, collectors and R1 running concurrently; `History` and `Runs` what holds of every
run; `Results` what one result does, `Callbacks` what a terminal move derives, value by value;
`Lineage` the callback chains; `Collect` and `Actors` the drivers; `Rounds` the drivers
inside runs; `Budgets` the number of moves; `Races`, `Deadlines` and `Isolation` where the code
keeps less than one would wish.

A run starts empty and takes steps in any order. Result events are produced for claimed
attempts only and then stay, so each may be consumed late, several times or never. `Consume` is
one step; `Read` and `Write` are the same operation with other steps in between. Either may
meet a lookup that fails. The once-per-attempt result needs `Consume` as one step, or the
condition of `Races.EffectsOnce`; only the absence of stored failures needs lookups that work.

Transactions are taken as serializable. The store opens them at the default isolation level
(`internal/domain/data/data.go:114-125`), under which promotion, claim and reset lock or delete
what they read, but the terminal move and the requeue do neither. `Isolation` splits these two
and gives the exact condition under which they keep the tables partitioned.

**Log.** `Varint`, `WalLog` (the byte format and replay), `WalIndex` (entries, order, bytes),
`WalFile` (operations on file and index as a value, crashes, failing compactions), `WalTails`
(appending behind a torn or foreign tail), `MemWal` and `DiskWal` (the classes; the disk log
keeps its index in a `MemWAL`, as both logs run the same index code), `Worker` (recording,
publishing, acknowledging in any interleaving).

**Wire and routing.** `Frames` (Redis envelope, signed payload), `Forward` (relays and the loop
check), `Coherence` (queue assignment and held snapshot).

## Where the code does less than it says

- A requeue carries no attempt. A consumer that read the row before, and writes later, returns
  a later attempt that is still running (`Races.StaleRetryTakesEffect`, exact condition
  `Races.RetryWriteIff`).
- The terminal move and the requeue read a row without locking it and ignore how many rows
  their last delete finds. A reset or a completion in between leaves the task in two stages
  (`Isolation.ResetBetween`, `Isolation.CompletedBetween`, exact conditions
  `Isolation.LateTerminalIff`, `Isolation.LateRequeueIff`).
- `internal/domain/data/callback.go:27` wants no bad callback to block a terminal move. A derived hash
  bucket outside 0..255 does: it violates the table CHECK and rolls the move back every time
  (`Budgets.BadBucketNeverEnds`; exact condition in `Runs.TerminalSucceedsIff`).
- The collector reads every error of its row lookup as "no row"; then it stores the outcome
  failed (`Runs.StoresFailedIff`).
- The schema comments (`internal/domain/schema/task_pendings.go:34`) give R1 the threshold
  max(timeout_ms, grace) + skew. The code uses grace + skew; the model follows the code
  (`Deadlines.EarlyReset`, exact condition `Deadlines.ResetsAsDocumentedIff`).
- Opening the disk log does not truncate a torn or foreign tail. That opening still finds every
  whole record, and a compaction mends the file, but what is appended in between can be lost
  (`WalTails.TornAckLosesNextAdd`, `WalTails.ForeignTailLosesAppends`, exact condition
  `WalTails.DurableIff`).
- Acks name only task and attempt, so a second, different outcome of one attempt can be
  forgotten unpublished (`Worker.AckForgetsSecondEvent`, exact condition `Worker.EventsKeptIff`).
- A compaction that fails after closing the old file leaves a descriptor through which every later
  append fails (`WalFile.DanglingIsDeaf`, exact condition `WalFile.CompactionKeepsHearingIff`).
- `internal/biz/forward/forward.go:5-6` says a ttl of 0 stops relaying. The forwarder replaces it by
  maxHops, so only the visited list ends a chain, and two node names with commas defeat that too
  (`Forward.TtlBoundsNothing`, `Forward.ForwardingEndsIff`).

## Model

| member | source | states |
|---|---|---|
| Runs.TablesPartition | internal/domain/data/store.go:140-484 | in every reachable state of serializable transactions, failing reads included, identities are the disjoint union of the four stages, payloads exist exactly in flight, results exactly for completed tasks, and no idempotency key occurs twice |
| Runs.MovesNeverFail | internal/domain/data/store.go:227-551 | in every reachable state promoting, claiming, resetting or requeueing any rows of the right stage hits no duplicate key and no CHECK |
| Runs.TerminalSucceedsIff | internal/domain/data/store.go:402-484 | Complete and DeadLetter are rejected without effect exactly when no row is in flight under the fence; otherwise they succeed exactly when the callback can be created, and fail without effect when it cannot; the duplicate-tombstone branch is never taken |
| Runs.AcceptedIsLatestClaim | internal/domain/data/store.go:402-413 | an accepted Complete carries the attempt of the latest claim of its task |
| Runs.AcceptedIsStored | internal/domain/data/store.go:402-482 | an accepted Complete stores exactly the outcome, result, error and time it was given, with its own attempt and the payload of the task, and removes the source row and payload |
| Runs.LatestClaim | internal/domain/data/store.go:41-72 | a row in flight was put there, unchanged since, by the latest claim of its task, which carried its attempt |
| Runs.ConsumedOnce | internal/runtime/collector/collector.go:51-113 | with Consume as one step, all results of one (task, attempt) together change the ledger at most once, whatever steps lie between and whether or not reads fail |
| Runs.EffectiveConsume | internal/runtime/collector/collector.go:51-113 | a consumed result that changes anything finds exactly its own attempt in flight and ends that flight, failing reads included |
| Runs.NoFailedOutcomeStored | internal/runtime/collector/collector.go:60-113 | as long as the row lookup errs only for a missing row, no run stores the outcome failed, the read and the write of a retry being separate steps |
| Runs.StoresFailedIff | internal/runtime/collector/collector.go:89-96 | exactly when a consumed result does store failed: a failed result of the attempt in flight whose read errs though the row is there, and whose callback can be created |
| Results.FailureOfTheAttempt | internal/runtime/collector/collector.go:89-113 | a failed result of the attempt in flight: at max_attempts > 0 used up the task ends as dead (nothing changes if its callback cannot be created), otherwise it is schedulable again with the same attempts and columns |
| Results.FailureOfNoAttempt | internal/runtime/collector/collector.go:89-98 | a failed result of any other attempt, or of a task not in flight, changes nothing |
| Results.FinalResult | internal/runtime/collector/collector.go:51-87 | codes 1 and 3 end the attempt in flight as succeeded or dead with the result, error and finishing time carried, and change nothing else or nothing at all |
| Results.TerminalValues | internal/domain/data/store.go:402-484 | the values a terminal move leaves, or that it changes nothing |
| Runs.BuriedOnlyWhenExhausted | internal/runtime/collector/collector.go:89-105 | every dead letter that takes effect finds attempts >= max_attempts on the row it moves, other steps between check and call included |
| Runs.DeliveredWithinBudget | internal/runtime/scheduler/cycle.go:97-133 | in any run, with any number of schedulers, requeues and resets, a task is delivered at most max_attempts times (never, for a budget below 1) |
| Runs.DeliveryInv | internal/runtime/scheduler/cycle.go:97-133 | the invariant behind it: held rows are unique per attempt and not yet delivered, delivered attempts are distinct and within the budget |
| Runs.KeyNamesOneTask | internal/domain/data/store.go:140-225 | after one successful Enqueue of a key, every later Enqueue of it answers with the same id and writes nothing |
| Runs.CreatedAsRequested | internal/domain/data/store.go:140-225 | a created task starts under an id unknown before, with rows the request can be read back from, column by column |
| Runs.EnqueueSucceedsIff | internal/domain/data/store.go:140-225 | in every reachable state an Enqueue of a taken key answers with its owner, one of a new key creates the task exactly when id, priority, channel and bucket are admissible |
| Runs.ResetOnlyStale | internal/runtime/reconcile/reconcile.go:210-218 | R1 moves a row only when the claim that put it in flight, the latest of its task, is older than the window on the shared clock |
| Runs.ClaimEdgeIsClaim | internal/domain/data/store.go:41-72 | only a Claim step puts a row in flight, and it stamps updated_at with the time of that step |
| Runs.RunIsHistory | internal/domain/data/store.go:227-551 | every run moves every task along the automaton pending, schedulable, processing, completed |
| Protocol.StepKeepsInv | internal/runtime/collector/collector.go:51-113 | every step of every actor, failing reads included, keeps the system invariant: consistent tables, claimed events, held rows and intents that still hold |
| Protocol.StepKeepsNoFailure | internal/runtime/collector/collector.go:60-113 | a step whose read works keeps every ended task succeeded or dead |
| Protocol.ReadOk | internal/runtime/collector/collector.go:89-113 | what a retry concludes from its read implies facts that other steps cannot undo |
| TaskView.EdgeRaisesPhase | internal/domain/data/store.go:41-72 | each move raises the task phase by exactly one, attempts by at most one, keeps public columns, payload, bucket and claimed node, keeps updated_at unless it is a claim, and never leaves the completed stage |
| TaskView.CreateRowsStep | internal/domain/data/store.go:140-225 | creation under a new id and key commits exactly when the CHECKs accept the row, keeps the tables consistent and touches no other task |
| TaskView.PromoteStep | internal/domain/data/store.go:227-295 | promotion of any pending rows commits, keeps the tables consistent, moves exactly those rows and copies all their columns |
| TaskView.ClaimStep | internal/domain/data/store.go:41-72 | a claim commits, moves exactly the picked rows with attempts + 1 and updated_at = now, and changes nothing else of them |
| TaskView.ReturnStep | internal/domain/data/store.go:488-551 | a reset (or requeue) commits and moves exactly the named rows back with attempts and node kept |
| TaskView.FinishStep | internal/domain/data/store.go:402-482 | the four terminal writes keep the tables consistent, end exactly this task with its row, payload and attempt, and touch no other |
| TaskView.DeriveStep | internal/domain/data/callback.go:28-103 | derivation commits exactly when there is nothing to derive, the depth limit or a taken key stops it, or the new id is unused and the converted bucket is in range; it creates at most one pending child that names its parent |
| Callbacks.AskedIsCreated | internal/domain/data/callback.go:28-103 | a terminal move on a row whose callback asks for a task under this outcome creates exactly that task, column by column with the defaults for what is left open, unless eight ancestors or a taken key stop it; it fails without effect for a used id or a bucket that does not fit |
| Callbacks.UnaskedIsNotCreated | internal/domain/data/callback.go:28-40 | where the callback is absent, undecodable, empty, for the other outcome or without a type, the move commits and creates nothing |
| Callbacks.WalkCounts | internal/domain/data/callback.go:106-124 | the walk counts the links of a chain of completed ancestors up to nine and stops before only where the chain ends |
| TaskView.TerminalStep | internal/domain/data/store.go:402-484 | a terminal move commits exactly when fence and derivation allow it; StaleAttempt exactly when no row is in flight under the fence; never a duplicate result |
| TaskView.EndsTaskMoves | internal/domain/data/store.go:402-484 | a terminal move ends one task with the given outcome and otherwise at most creates the new one |
| History.Persists | internal/domain/data/store.go:402-484 | whatever was true of a task stays true: phases and attempts never fall, public columns and payload never change, an ended task is final |
| History.ClaimedOnce | internal/domain/data/store.go:41-72 | each (task, attempt) is claimed at most once |
| History.EveryAttemptWasClaimed | internal/domain/data/store.go:41-72 | attempts have no gaps: a task at attempt n was claimed once for each of 1..n |
| History.EndedOnce | internal/domain/data/store.go:373-484 | at most one terminal move takes effect per task, and its completed and result rows never change afterwards |
| History.EndsAsCreated | internal/domain/data/store.go:402-482 | a completed row has the public columns, and its result the payload, the id was created with, and the final attempt |
| History.MovesArePhase | internal/domain/data/store_ext.go:25-74 | the number of moves a task has made is a function of its stage and attempts |
| History.MoveBudgetIff | internal/runtime/scheduler/cycle.go:97-113 | a task makes at most 2·max_attempts + 3 moves exactly when no row beyond its budget is claimed again |
| History.BuriedFirstBoundsMoves | internal/runtime/scheduler/cycle.go:97-113 | if a row beyond its budget is buried before anything else moves it, its task makes at most 2·max_attempts + 3 moves, whatever happens to others in between |
| Budgets.RoundsBoundMoves | internal/runtime/scheduler/cycle.go:86-136 | runs whose claims are handled row by row as RunOnce does, with any batch and any other steps between rounds, move a task of budget >= 0 at most 2·max_attempts + 3 times, if the callbacks of its dead letters can be created |
| Races.StaleRetryTakesEffect | internal/runtime/collector/collector.go:89-113 | a run in which two consumers of one failed result both change the ledger: the second, having read before, returns the next attempt |
| Races.EffectsOnce | internal/runtime/collector/collector.go:89-113 | with read and write of a retry apart, all effects of one (task, attempt) number at most one, provided every late requeue or dead letter that takes effect meets its own attempt |
| Races.RetryWriteIff | internal/domain/data/store_ext.go:25-74 | a late requeue acts exactly when the task is in flight, and on its own attempt exactly when that attempt still is |
| Budgets.BadBucketNeverEnds | internal/domain/data/callback.go:88-96 | for every budget there are such runs with any number of moves of one task: a derived bucket outside 0..255 rolls every terminal move back |
| Budgets.BurialFails | internal/domain/data/callback.go:88-96 | the dead letter of such a task fails with a constraint error at every attempt |
| Deadlines.DeadlineIff | internal/runtime/reconcile/reconcile.go:210-211 | for one row the window of R1 is as good as max(timeout_ms, grace) + skew exactly when its timeout is within the grace period |
| Deadlines.ResetsAsDocumentedIff | internal/runtime/reconcile/reconcile.go:210-218 | after any run, no later R1 round takes a task back within its timeout exactly when every row in flight has its timeout within the grace period or is due already |
| Deadlines.EarlyReset | internal/runtime/reconcile/reconcile.go:210-218 | for every timeout longer than the grace period a run in which R1 takes the task back too early |
| Isolation.LateTerminalIff | internal/domain/data/store.go:402-484 | a terminal move whose reads are older than its writes leaves the tables partitioned exactly when some row of the task is still in flight at its delete |
| Isolation.LateIsSerialIff | internal/domain/data/store.go:402-484 | in every run its effect is that of the serial transaction exactly when the attempt that was read is still in flight |
| Isolation.ResetBetween | internal/domain/data/store.go:473-478 | a run in which R1 resets a row between read and delete of a terminal move: the task is completed and schedulable at once |
| Isolation.LateRequeueIff | internal/domain/data/store_ext.go:30-66 | the same exact condition for a requeue |
| Isolation.CompletedBetween | internal/domain/data/store_ext.go:30-66 | a run in which a task completes between read and delete of a requeue |
| Lineage.ChainsAreShort | internal/domain/data/callback.go:36-46 | below any enqueued task there are at most 8 derived tasks, at most one per generation 1..8, each the child of the one before, which is completed |
| Lineage.WalkSeesDepth | internal/domain/data/callback.go:106-124 | the walk over the completed table counts at least the true derivation depth, up to its cut-off |
| Lineage.OnePerGeneration | internal/domain/data/callback.go:28-103 | two tasks of one chain and one generation are the same task |
| Lineage.TreeInv | internal/domain/data/callback.go:28-103 | in every reachable state the family tree matches the rows: parents of derived tasks are completed, have one child, and sit one generation up |
| Rows.DerivedAsSpecified | internal/domain/data/callback.go:70-102 | the callback specification can be read back from the derived row exactly when it leaves nothing to a default, a clamp or the 16-bit conversion |
| DerivedKeys.DefaultKeysTell | internal/domain/data/callback.go:49-53 | two terminal moves get the same default key exactly when they end the same attempt of the same task with the same outcome |
| DerivedKeys.KeyLayout | internal/domain/data/callback.go:49-53 | a default key is parent, attempt and outcome code joined by colons, the codes being 0 to 3 |
| DerivedKeys.DecimalReads | internal/domain/data/callback.go:49-53 | the numbers in it read back as decimals |
| LedgerStore.Store.Enqueue | internal/domain/data/store.go:140-225 | commits exactly the enqueue transaction; on any constraint error all seven tables are as before |
| LedgerStore.Store.UpsertIdentity | internal/domain/data/store.go:34-36 | a taken key affects no row, a taken id under another key is an error, otherwise one row is added |
| LedgerStore.Store.Promote | internal/domain/data/store.go:227-295 | moves at most limit unlocked pending rows, none left out having a higher priority than one moved, or nothing at all |
| LedgerStore.Store.Claim | internal/domain/data/store.go:297-362 | moves at most limit unlocked rows; every one left out has a lower priority, or the same and a higher id, than each one moved; returns exactly the inserted rows, or changes nothing |
| LedgerStore.Store.ResetExpired | internal/domain/data/store.go:488-551 | moves only unlocked rows older than the deadline; one left out means the limit is used up on rows no younger; or changes nothing |
| LedgerStore.Store.Requeue | internal/domain/data/store_ext.go:25-74 | moves the row back keeping attempts and node; a missing row is false without effect |
| LedgerStore.Store.GetPayload | internal/domain/data/store_ext.go:14-20 | the stored payload or not found |
| LedgerStore.Store.CallbackDepth | internal/domain/data/callback.go:106-124 | the loop returns the number of completed ancestors, cut off one past the limit |
| LedgerStore.Store.DeriveCallback | internal/domain/data/callback.go:28-103 | runs exactly the derivation inside the terminal transaction |
| LedgerStore.Store.WriteTerminal | internal/domain/data/store.go:402-482 | which of the four writes fails, and the tables after all of them |
| LedgerStore.Store.TerminalMove | internal/domain/data/store.go:402-484 | commits exactly the terminal transaction or restores all seven tables; sentinels become false |
| LedgerStore.Store.Complete | internal/domain/data/store.go:368-377 | the fenced terminal move |
| LedgerStore.Store.DeadLetter | internal/domain/data/store.go:381-386 | the unfenced terminal move with outcome dead |
| Orders.TopIsMostUrgent | internal/domain/data/store.go:41-48 | priority descending, then id ascending: what the limit leaves out |
| Orders.TopIsOldestOverdue | internal/domain/data/store.go:494-500 | oldest first among the overdue: what the limit leaves out |
| Query.Top | internal/domain/data/store.go:297-362 | ORDER BY ... LIMIT over unlocked rows: as many as fit, none behind one left out, in order, each once |
| Query.Collect | internal/domain/data/store.go:227-295 | the loop gathers exactly the copies and ids of the chosen rows |
| Actors.Collector.Retry | internal/runtime/collector/collector.go:89-113 | pass on, ignore, bury or requeue, each with its exact effect on the tables |
| Actors.Collector.Consume | internal/runtime/collector/collector.go:51-87 | one result runs exactly the transaction the protocol step is about |
| Actors.LedgerCycle.constructor | internal/runtime/scheduler/cycle.go:60-82 | batch limits as given, else one for the other, else 500 |
| Actors.LedgerCycle.DispatchRows | internal/runtime/scheduler/cycle.go:97-133 | the loop buries and sends the rows in turn as SentIff spells out; the counters add up |
| Actors.SentIff | internal/runtime/scheduler/cycle.go:97-133 | a row with attempts > max_attempts gets a dead letter and is not sent; any other leaves the tables alone and is sent exactly when its payload is there at its turn and the dispatcher accepts it |
| Actors.LedgerCycle.RunOnce | internal/runtime/scheduler/cycle.go:86-136 | one round promotes, claims, then takes each row in turn; a row looked at is sent exactly when attempts <= max_attempts, its payload is there and the dispatcher accepts; a round that fails has promoted at most |
| Actors.Reconciler.constructor | internal/runtime/reconcile/reconcile.go:89-133 | grace 90 s, skew 0, limit 500 and purge interval 30 unless given |
| Actors.Reconciler.RunOnce | internal/runtime/reconcile/reconcile.go:210-234 | resets the oldest limit rows claimed more than grace + skew ago, none within its timeout if that is within the grace period; counts only successful rounds |
| Rounds.RoundExtendsRun | internal/runtime/scheduler/cycle.go:86-136 | a scheduling round is a stretch of protocol steps handling its rows in turn, so what holds of runs holds of RunOnce |
| Rounds.TreatsRows | internal/runtime/scheduler/cycle.go:97-133 | in a round of a run a row with attempts <= max_attempts is sent exactly when accepted and is still in flight with its payload at the end; any other is not sent and is dead after its turn unless its callback cannot be created |
| Rounds.WholeBudgetIsSent | internal/runtime/scheduler/cycle.go:107-114 | for every budget and every number of deliveries up to it a run that makes exactly that many: the last permitted attempt is sent too |
| Rounds.RoundsDrain | internal/runtime/reconcile/reconcile.go:210-218 | for a fixed deadline k expired rows shrink by exactly limit per round, to none after k / limit rounds rounded up |
| Rounds.OldestFirst | internal/runtime/reconcile/reconcile.go:210-218 | what an earlier round resets was claimed no later than what a later round resets |
| Varint.ReadBackUvarint | internal/worker/wal_disk.go:195-205 | every 64-bit unsigned number is read back, and what follows is left alone |
| Varint.ReadBackVarint | internal/worker/wal_disk.go:207-217 | every int64, negative ones included, is read back through ZigZag |
| Varint.CutVarint | internal/worker/wal_disk.go:79-124 | a number cut short anywhere is rejected |
| Varint.ReadIff | internal/worker/wal_disk.go:79-124 | a number is read exactly when one of the first ten bytes ends it, a tenth being at most 1, and its value is that of its base 128 digits |
| WalIndex.AddSound | internal/worker/wal.go:68-91 | adding keeps order, entries and byte total consistent and at most max entries |
| WalIndex.AckSound | internal/worker/wal.go:93-109 | an ack keeps them consistent and removes exactly that key |
| WalIndex.AddByKeys | internal/worker/wal.go:68-91 | an overwritten entry keeps its place, a new one comes last, a full log loses its oldest, nothing else changes |
| WalIndex.AckByKeys | internal/worker/wal.go:93-109 | an ack removes its key from the order, leaves the others as they stand, and does nothing for an unknown key |
| WalIndex.EvictKeepsNewest | internal/worker/wal.go:82-90 | eviction keeps exactly the newest max entries, in order and unchanged |
| MemWal.MemWAL.constructor | internal/worker/wal.go:60-65 | an empty log with the default maxima where none is given |
| MemWal.MemWAL.Add | internal/worker/wal.go:68-91 | the in-place update with its eviction loop is the index operation, and keeps the index sound |
| MemWal.MemWAL.Ack | internal/worker/wal.go:93-109 | removing entry, order position and bytes in place is the index operation |
| MemWal.MemWAL.Pending | internal/worker/wal.go:112-122 | the pending results in insertion order |
| MemWal.MemWAL.HighWater | internal/worker/wal.go:139-143 | true exactly when the entry count or the sum of the entry sizes reaches its maximum |
| WalLog.ParseEncoded | internal/worker/wal_disk.go:79-124 | a written record is read back as itself, and what follows it is left |
| WalLog.ParseCut | internal/worker/wal_disk.go:79-124 | a record cut at any byte after its first is a torn tail |
| WalLog.RecordLayout | internal/worker/wal_disk.go:195-217 | the bytes of both record types |
| WalLog.UndecodableIsSkipped | internal/worker/wal_disk.go:94-108 | a record whose length is right but whose body does not decode is skipped |
| WalLog.ScanWritten | internal/worker/wal_disk.go:79-124 | what was written is what replay reads |
| WalLog.PrefixReplaysWholeRecords | internal/worker/wal_disk.go:78-124 | every prefix of written records replays to the state after exactly the records whole in it |
| WalLog.RebuildGood | internal/worker/wal_disk.go:79-124 | whatever bytes are found, opening yields a sound index |
| WalLog.CompactedReplays | internal/worker/wal_disk.go:219-272 | the compacted file replays to the index it was written from, byte total included |
| WalFile.ReopenRebuildsLive | internal/worker/wal_disk.go:127-193 | any sequence of adds, acks and compactions, automatic ones included: reopening with the same max rebuilds the same entries, order and byte total |
| WalFile.FileIsWritten | internal/worker/wal_disk.go:127-272 | what adds, acks and compactions leave in the file is a sequence of written records |
| WalFile.PrefixOfLogReplays | internal/worker/wal_disk.go:78-124 | every prefix of a file that any operations left replays to the state after exactly the records whole in it, the whole file to the live state |
| WalFile.CutAppend | internal/worker/wal_disk.go:195-217 | an append cut off anywhere leaves a file that replays to the state before it, or after it if the whole record made it |
| WalFile.CompactionKeepsHearingIff | internal/worker/wal_disk.go:219-272 | behind a compaction new results still reach the index exactly when it succeeded or failed before closing the old file |
| WalFile.DanglingIsDeaf | internal/worker/wal_disk.go:195-272 | once the descriptor dangles no operation changes file or index again |
| WalTails.DurableIff | internal/worker/wal_disk.go:67-76 | whatever is done to an opened log, the next opening gives back its state, if and only if the file it was opened on ends at a record boundary; for a message format rich enough to have distinct events behind any cut |
| WalTails.RichFormatExists | internal/worker/wal_disk.go:67-76 | such a format exists |
| WalTails.TornAddReadsAlike | internal/worker/wal_disk.go:79-124 | a torn add swallows a fixed number of bytes of the next record, so it reads the same from records that agree so far |
| WalFile.CompactIsExact | internal/worker/wal_disk.go:219-272 | a compaction makes the file exact whatever it was before |
| WalFile.AckCompactsAt1024 | internal/worker/wal_disk.go:144-158 | the ack of a pending key is appended and counted, the 1024th since the last compaction leaves a file of just the pending records |
| WalTails.ForeignTailLosesAppends | internal/worker/wal_disk.go:67-76 | behind an unknown record type a reopen gives the live index exactly when that is still the one found at opening |
| WalTails.TornAckLosesNextAdd | internal/worker/wal_disk.go:67-76 | behind an ack torn at any byte the next result added is lost at the next reopen, whatever its body, short of length 1 or 2 or a first byte 1 or 2 |
| DiskWal.DiskWAL.constructor | internal/worker/wal_disk.go:46-76 | opening replays the file into the live index; exact if and only if the file ends cleanly |
| DiskWal.DiskWAL.Replay | internal/worker/wal_disk.go:79-124 | the reading loop rebuilds exactly the fold of the scanned records |
| DiskWal.DiskWAL.Add | internal/worker/wal_disk.go:127-142 | file, index and descriptor after an add; after a failed write the bytes left and what a restart finds |
| DiskWal.DiskWAL.AckRecord | internal/worker/wal_disk.go:144-158 | file, index and counter after an ack, and what a restart finds after a failed write |
| DiskWal.DiskWAL.Ack | internal/worker/wal_disk.go:144-158 | file, index, counter and descriptor in every case, a compaction that fails at the threshold included |
| DiskWal.DiskWAL.CompactLocked | internal/worker/wal_disk.go:219-272 | file, index, counter and descriptor for every I/O fault; at every moment the path holds the old file or one that replays to the live state |
| Worker.NothingForgotten | internal/worker/runtime.go:340-379 | in any interleaving every recorded key is pending, was accepted by the sink, or was evicted; the index stays sound |
| Worker.EvictsOnlyWhenFull | internal/worker/wal.go:68-91 | an entry is evicted only when a full log is given a new key, and it is the oldest |
| Worker.EventsKeptIff | internal/worker/runtime.go:340-379 | no interleaving loses an event of a family if and only if no two of them share a key |
| Worker.AckForgetsSecondEvent | internal/worker/runtime.go:340-379 | the ack of one outcome of an attempt removes a different, unpublished one |
| Worker.ReplayLeavesRefused | internal/worker/runtime.go:366-379 | an undisturbed replay round leaves exactly what the sink refused |
| Worker.Runtime.RecordAndPublish | internal/worker/runtime.go:340-350 | write first, then publish, then ack only what was accepted |
| Worker.Runtime.Replay | internal/worker/runtime.go:366-379 | offers the snapshot in order and acks what is accepted, until cancelled |
| Frames.EnvelopeRoundTrip | internal/eventbus/channel/redis/encode.go:21-87 | all seven fields survive for every int64 attempt; an empty topic becomes the subscribed one; trailing bytes are ignored |
| Frames.EnvelopePrefixRejected | internal/eventbus/channel/redis/encode.go:40-105 | every strict prefix of a frame is rejected |
| Frames.WriteEnvelope | internal/eventbus/channel/redis/encode.go:21-37 | appending field by field yields the frame |
| Frames.ReadEnvelope | internal/eventbus/channel/redis/encode.go:40-87 | reading field by field, advancing over the rest, decodes the frame |
| Frames.SplitOfPrefix | internal/task/codec/codec.go:91-103 | split undoes the framing for any signature and body, and what it makes of every prefix |
| Frames.MessageRoundTrip | internal/task/codec/codec.go:45-88 | a message is decoded to itself under its signature; encoding fails exactly for a nameless, unregistered or unmarshallable one |
| Frames.FramesDoNotMix | internal/eventbus/channel/redis/encode.go:14-44 | a frame of one kind is never taken for the other |
| Frames.Heads | internal/eventbus/channel/redis/encode.go:40-43 | both frames begin with their magic bytes and version, and only such frames are read |
| Frames.SevenFields | internal/eventbus/channel/redis/encode.go:44-87 | what decoding makes of the seven fields: no headers from an empty text or null, a refusal of undecodable ones, the subscribed topic for an empty one |
| Frames.DecodedFrame | internal/task/codec/codec.go:70-89 | the message of any framed signature and body, or which refusal |
| Frames.EncodedFrame | internal/task/codec/codec.go:45-67 | the frame of a message, or which refusal |
| Forward.VisitedRoundTripIff | internal/biz/forward/forward.go:206-231 | the header gives the visited list back exactly when no name has a comma and the list is not one empty name |
| Forward.JoinStrings | internal/biz/forward/forward.go:222-231 | the loop joins with commas |
| Forward.ContainsString | internal/biz/forward/forward.go:213-220 | the loop finds exactly the members |
| Forward.ServerForward | internal/biz/forward/forward.go:111-142 | handled exactly when not visited and a local handler exists; the exact condition of each refusal and of sending on; a request sent on keeps method and target, carries ttl - 1 or the limit for 0, and the visited list through the header |
| Forward.RelayKeepsVisited | internal/biz/forward/forward.go:111-202 | after a relay the node is last on the list, was not on it before, and every comma-free name stays |
| Forward.TtlLeftIff | internal/biz/forward/forward.go:166-180 | a relayed request arrives with a ttl exactly when one was left to pass on or the limit of the relaying node stands in |
| Forward.TtlBoundsNothing | internal/biz/forward/forward.go:111-202 | whatever its ttl, a request can travel over any number of different nodes with comma-free names |
| Forward.EachNodeRelaysOnce | internal/biz/forward/forward.go:111-202 | with comma-free names a request passes the loop check at most once per node, wherever addresses lead, so it is relayed at most as often as there are nodes |
| Forward.ForwardingEndsIff | internal/biz/forward/forward.go:111-231 | chains of relays over a set of node names are bounded if and only if at most one name has a comma |
| Forward.CommasBeatAnyBound | internal/biz/forward/forward.go:111-231 | two nodes with commas in their names pass a request back and forth for any number of hops |
| Coherence.Assign | internal/biz/coherence/coherence.go:153-188 | the filtering and appending loops compute the assignment |
| Coherence.OrderIrrelevant | internal/biz/coherence/coherence.go:153-188 | the assignment depends on which queues and nodes there are, not on their order nor on the sorting routine |
| Coherence.ExecutorsAre | internal/biz/coherence/coherence.go:154-162 | the executors are the nodes with operation permission or no permission listed, or all nodes when there is none |
| Coherence.RoundRobin | internal/biz/coherence/coherence.go:163-187 | the routes go through the queues in order and round and round through the executors by id, with network and first label of each |
| Coherence.LeMeans | internal/biz/coherence/coherence.go:163-165 | the order is bytewise: a prefix first, otherwise the first difference |
| Coherence.EveryQueueOnce | internal/biz/coherence/coherence.go:153-188 | with a node every queue gets exactly one route, to an executor and with its data; without one there are none |
| Coherence.Balanced | internal/biz/coherence/coherence.go:153-188 | with distinct ids the loads of any two executors differ by at most one |
| Coherence.SortedOnce | internal/biz/coherence/coherence.go:163-165 | where a name tells the element there is only one sorted order |
| Coherence.CoherenceStore.Apply | internal/biz/coherence/coherence.go:33-45 | a snapshot is taken exactly when none is held or its revision is higher |
| Coherence.HeldIsLatest | internal/biz/coherence/coherence.go:33-45 | what is held was pushed and nothing pushed has a higher revision |
| Coherence.PushesConverge | internal/biz/coherence/coherence.go:33-45 | nodes pushed the same snapshots in any order, number or delay hold the same one, if a revision stands for one snapshot |

## Left out

- Clients of gRPC, HTTP, Redis and PostgreSQL, query builders, metrics, logging, configuration and assembly: I/O around the logic.
- Row locks: `FOR UPDATE SKIP LOCKED` is a parameter `locked`, any set of rows other transactions hold, and the order among equal sort keys is free. Finer interleavings than reads before writes (`Isolation`) are not modelled.
- Transient database errors: only constraint violations and a failing read in the collector are modelled.
- The SQL function `stateflux.enqueue_tasks`: a second creation path with other rules for repeated explicit ids.
- Empty idempotency keys in runs: the transaction handles them, runs assume the non-empty keys all callers give.
- Id generation: new ids are parameters, non-zero; where freshness matters the statement says what happens otherwise. A store without an id generator, which derives nothing, is not modelled.
- 64-bit overflow of attempts and ids in the ledger: integers are unbounded there. Conversions that can lose bits (the bucket to 16 bits, maxHops to 32 bits) are written out.
- Single-table repositories, counters, listing and identity cleanup: not part of the driven steps.
- Columns of result events that do not reach the ledger (source, type, operator, headers), and the wrapping of non-JSON results as JSON strings: bytes pass through as they are.
- Message and route building, and what a successful send means: the deliverer and the sink are arbitrary answers.
- Protobuf and JSON bodies: invertible encodings with a length. That protobuf may write one map in several byte orders is not modelled.
- Orphan scan, probe loop, purge contents and the background loops of the reconciler; subscriptions and pausing in the worker; stopping a worker.
- Replay of a record that claims more bytes than memory holds: it is a torn tail like any other.
- DurableIff: assumes of the message format that new events exist that differ behind any cut; `WalTails.RichFormatExists` shows a format that meets all premises. Which of two such adds is lost behind a torn add is left open, because it depends on what the swallowed bytes decode to.
- ReopenRebuildsLive: assumes the same max at reopening, since evictions are not logged.
- DeliveredWithinBudget: counts accepted sends; a send that fails after having reached the executor is not counted.
- Balanced: with duplicate node ids loads are not compared.
- Error texts, and which of several decoding errors is reported: one refusal per kind.
- Dispatcher, cache view, leader election, cluster membership, handlers and capabilities.
- Snapshot filtering per node and queue lookup: simple filters over the routes.
