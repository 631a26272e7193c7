# A verified model of the flash-sale engine

Handlers reserve stock in Redis; C++ shards deduct it again from their own inventory; background
writers persist the orders. This project models that path in Dafny 4.11 and proves what it keeps
in every run. `dafny verify dfyconfig.toml` checks everything.

Concurrent parts are machines of atomic steps: a state, a set of steps any thread may take next, and
theorems over every run. Each load, compare-and-swap and store of the multi-producer queue is a step
of its own, as are each item copied into or out of the ring and each load, claim, hand-over,
acknowledgement and join of the shard pipeline. Steps interleave freely and sequentially
consistently. Beside the machines, the code one thread runs is written as classes and methods over
arrays and fields and proved equal to the specification functions the theorems are about.

| file | what it holds |
|---|---|
| `RingIndex`, `MpmcSteps`, `MpmcSolo`, `MpmcQueue`, `TicketQueue` | the bounded multi-producer multi-consumer queue: index mask, atomic steps, what a thread running alone does, the retry loops over arrays, and the queue its users see |
| `SpscRing`, `SpscSteps`, `SpscSolo`, `SpscQueue` | the single-producer single-consumer ring: index arithmetic, steps with stale indices, what one side running alone does, the chunked copy loops |
| `Wal`, `Dedup`, `Worker`, `WorkerProgram` | one shard worker: log bytes, duplicate filter, inventory, flags, results, and the moment of a crash |
| `Bridge`, `Pipeline`, `Drain`, `Stop`, `Schedules`, `Limits`, `FalseDrain`, `Progress`, `EngineLedger`, `Sums` | the sharded engine: entry points, conservation, barrier drain, two-phase stop, how it can always be driven on, where the promises of stop and drain end, what it can always still do, and its books |
| `RedisStore`, `Reservation`, `ReservationLimits`, `Refunds`, `Writers` | the Redis scripts, the reservation protocol with crashes, why its premises are exact, what it gives back, the batching writers |
| `OrderDrain`, `OrderDrainRuns`, `SequenceMonitor`, `BatchDispatcher`, `IntentCodec` | the older single-dispatcher engine: drain on done, sequence monitor, barrier broadcast, payload codec |

Where code and documentation disagree, the model follows the code. The documentation quoted here is the
README.md at the root of the modelled repository.

- Its line 182 promises the log entry before the update of memory. The code deducts first: exactly when
  it sells at least one unit is there a moment with the stock lower than the log accounts for
  (`Worker.DeductionPrecedesLog`). What does hold is that a sale is logged before it is reported.
- Its line 17 promises that a graceful stop processes everything in flight. An entry is sure to be
  processed only if its dispatcher has committed itself to it when the stop begins, that is, if it
  is the published front of a queue whose dispatcher is about to dequeue;
  `Limits.StopLosesNothingExactly` proves the equivalence from every reachable state.
- Its line 183 says that the engine replays the log on startup. Nothing calls the recovery; what a
  replay would give is proved in `WorkerProgram.FileReplaysToInventory`.
- `WaitEngineDrained` can leave its loop as drained although requests accepted before its barriers are
  unprocessed. `FalseDrain.DrainCanLieExactly` says exactly when, from every reachable state in which a
  drain is about to begin: the workers can still get as many barriers as there are workers, an older
  one among them, and every queue takes the drain's own. That takes a stop that overtook an earlier
  drain: a drain that has returned while the engine still runs was sound
  (`Drain.ReturnWhileRunningIsSound`), and so is every drain that begins while it runs
  (`Drain.EarlyDrainIsSound`).

Premises, stated as `requires` or as the domain of a step. A client request's id is neither a control nor a
benchmark id; its quantity may be anything in the engine's books, and only what is said of the
sold-out flags asks that no request gives units back and that flagged SKUs start with stock. The
reservation protocol asks for at least one unit and has three more premises: a user's new
reservation is not granted while one of their rollbacks may still run, nor while the sweeper still
holds a listed member of theirs, some harmless cases aside; and a member without an order is no longer in
flight when the sweeper looks it up. `ReservationLimits.FairExactly` proves them exact: in every state
that runs within them reach, a step keeps to them if and only if no way on that keeps to them breaks the
protocol's promise.

## Model

| member | source | states |
|---|---|---|
| RingIndex.CapacityCheckIsPowerOfTwo | backend/handler/mpmc_queue.hpp:28-30 | a capacity passes the constructor's bit test exactly if it is a power of two of at least two |
| RingIndex.MaskIsModulus | backend/handler/mpmc_queue.hpp:50 | masking with a power of two less one is the remainder |
| RingIndex.MaskSelectsSlot | backend/handler/mpmc_queue.hpp:50 | for every accepted capacity the mask gives the position's slot |
| RingIndex.SameSlotSameTicket | backend/handler/mpmc_queue.hpp:50 | two tickets less than a lap apart never share a slot |
| MpmcSteps.StepKeepsInv | backend/handler/mpmc_queue.hpp:45-104 | every atomic step of any thread, spurious swap failures included, keeps the invariant that ties cell sequences, tickets, thread-local observations and owners together |
| MpmcSteps.EveryRunIsSafe | backend/handler/mpmc_queue.hpp:45-96 | in every run of any number of threads the positions are at most one lap apart, no two threads hold the same cell, and the consumer of a ticket gets what its producer wrote |
| MpmcSteps.InvMakesCellsExclusive | backend/handler/mpmc_queue.hpp:66-67 | between claim and publication, and between taking and release, one thread alone touches a cell |
| MpmcSteps.StepIsLater | backend/handler/mpmc_queue.hpp:54-67 | a ticket keeps its producer, value and consumer for ever and never goes back a phase |
| MpmcSteps.RunKeepsInv | backend/handler/mpmc_queue.hpp:45-96 | the same over whole runs, from any state that meets the invariant |
| MpmcSteps.EveryThreadCanStep | backend/handler/mpmc_queue.hpp:45-104 | no thread is ever stuck: in every reachable state an idle one can call and a busy one can go on |
| MpmcSteps.CallResult | backend/handler/mpmc_queue.hpp:66-68 | a finished enqueue published one ticket of its own with its own value; a finished dequeue returns the value of the one ticket it took |
| MpmcSteps.FullMeansPreviousLapUnreleased | backend/handler/mpmc_queue.hpp:54-60 | an enqueue gives up exactly if its position is current and the ticket one lap back is unreleased at the sequence load |
| MpmcSteps.EmptyMeansUnpublished | backend/handler/mpmc_queue.hpp:81-87 | a dequeue gives up exactly if its position is current and that ticket is unclaimed or unpublished at the sequence load |
| MpmcSteps.RefusalExactWhenQuiet | backend/handler/mpmc_queue.hpp:50-63 | with no other thread inside an operation, refusal means exactly full, or exactly empty |
| MpmcSteps.SizeOverApproximates | backend/handler/mpmc_queue.hpp:99-104 | the guard against underflow is never taken, the size is never too small, and zero means equal positions |
| MpmcSteps.StepRefinesTicketQueue | backend/handler/mpmc_queue.hpp:45-96 | every atomic step is a claim, a publication, a take from the front, or nothing, of a bounded queue of tickets |
| MpmcSteps.EmptyMeansNothingToTake | backend/handler/mpmc_queue.hpp:85-87 | a dequeue that gives up faced a ticket queue with nothing to take |
| MpmcSolo.UndisturbedEnqueue | backend/handler/mpmc_queue.hpp:45-69 | from every reachable state with no thread between claim and release, a thread running alone appends its value, published, if there is room, and otherwise gives up and changes nothing |
| MpmcSolo.UndisturbedDequeue | backend/handler/mpmc_queue.hpp:72-96 | such a thread returns the front value and removes it, or finds the queue empty and changes nothing |
| MpmcSolo.UndisturbedSize | backend/handler/mpmc_queue.hpp:99-104 | a size nobody disturbs is the number of entries |
| MpmcSolo.SpuriousFailureCostsALook | backend/handler/mpmc_queue.hpp:55 | a swap that fails for no reason brings the thread back to the very same state after one more load |
| MpmcSolo.ReturnsOnlyThere | backend/handler/mpmc_queue.hpp:49-68 | a call returns at its sequence load, at its store of the sequence, or with a size, and from nowhere else |
| MpmcSolo.StaleThreadComesBack | backend/handler/mpmc_queue.hpp:54-64 | however stale its position, a thread running alone comes back to its sequence load with the current one |
| MpmcSolo.OwnerFinishes | backend/handler/mpmc_queue.hpp:66-68 | a thread that has claimed finishes alone whatever the others are doing |
| Mpmc.MpmcQueue.Create | backend/handler/mpmc_queue.hpp:25-38 | construction succeeds exactly for powers of two of at least two, and gives an empty valid queue |
| Mpmc.MpmcQueue.constructor | backend/handler/mpmc_queue.hpp:25-38 | the initial sequences, positions and mask make an empty queue |
| Mpmc.MpmcQueue.TryEnqueue | backend/handler/mpmc_queue.hpp:45-69 | without interference: succeeds exactly if not full, and then appends |
| Mpmc.MpmcQueue.TryDequeue | backend/handler/mpmc_queue.hpp:72-96 | without interference: succeeds exactly if not empty, and then removes and returns the oldest item |
| Mpmc.MpmcQueue.Size | backend/handler/mpmc_queue.hpp:99-104 | without interference: the number of items |
| Mpmc.LayoutDequeue | backend/handler/mpmc_queue.hpp:93-94 | reading the front cell and storing the next lap's sequence removes the first item from the cells' contents |
| SpscRing.SingleTestIsBatchTest | backend/handler/spsc_queue.hpp:26-30 | the single call's full test is the batch call's for one item |
| SpscRing.BatchIsRepeatedOffers | backend/handler/spsc_queue.hpp:38-68 | a batch that fits does what its items one by one would |
| SpscRing.BatchIsRepeatedPolls | backend/handler/spsc_queue.hpp:84-118 | a batch poll gives what up to its maximum of single polls would |
| SpscSteps.StepKeepsInv | backend/handler/spsc_queue.hpp:24-118 | each index load, item copy and index store keeps the ring's invariant |
| SpscSteps.BothSidesCanStep | backend/handler/spsc_queue.hpp:24-118 | neither side is ever stuck |
| SpscSteps.EveryRunIsFifo | backend/handler/spsc_queue.hpp:24-118 | in every run consumed followed by the ring's contents is produced, occupancy stays within capacity, and the copy loops never meet in a slot |
| SpscSteps.InvMakesCopiesDisjoint | backend/handler/spsc_queue.hpp:53-64 | the slot about to be written is neither the slot being read nor one that holds an unread item |
| SpscSteps.ChunkSlotIsSlot | backend/handler/spsc_queue.hpp:54-64 | the two chunks walk through consecutive slots around the end of the buffer |
| SpscSteps.RingIsUnconsumed | backend/handler/spsc_queue.hpp:91-97 | the contents read off the two indices are the items produced and not consumed |
| SpscSteps.DecisionAtLoad | backend/handler/spsc_queue.hpp:49-51 | a batch is refused exactly if it does not fit at the index load; a poll is granted the smaller of what is there and its maximum |
| SpscSteps.StepRefinesFifo | backend/handler/spsc_queue.hpp:24-118 | every step appends one whole batch, removes one from the front, or changes nothing visible |
| SpscSolo.UndisturbedOffer | backend/handler/spsc_queue.hpp:38-68 | with the consumer standing still anywhere, a batch is appended whole exactly if it fits, and otherwise refused |
| SpscSolo.UndisturbedPoll | backend/handler/spsc_queue.hpp:84-118 | with the producer standing still anywhere, a poll returns and removes from the front as much as there is, up to its maximum |
| Spsc.SpscQueue.TryEnqueue | backend/handler/spsc_queue.hpp:24-35 | with a possibly stale head: appends or changes nothing; exact if the head is current |
| Spsc.SpscQueue.TryEnqueueBatch | backend/handler/spsc_queue.hpp:38-68 | all or nothing, and exact if the head is current |
| Spsc.SpscQueue.TryDequeue | backend/handler/spsc_queue.hpp:71-81 | with a possibly stale tail: returns the oldest item or nothing; exact if the tail is current |
| Spsc.SpscQueue.TryDequeueBatch | backend/handler/spsc_queue.hpp:84-118 | moves the smaller of available and maximum from the front to the buffer and leaves the rest of the buffer alone |
| Spsc.SpscQueue.Size | backend/handler/spsc_queue.hpp:121-126 | the number of items in the ring |
| Spsc.RingGrows | backend/handler/spsc_queue.hpp:53-66 | items laid down behind the tail, around the end, are appended by moving the tail over them |
| Spsc.RingShrinks | backend/handler/spsc_queue.hpp:101-116 | moving the head over copied items removes them from the front |
| Wal.LittleEndianRoundTrip | backend/handler/wal.hpp:108-114 | a field that fits its width is read back from its bytes |
| Wal.LittleEndianByte | backend/handler/wal.hpp:108-114 | the least significant byte comes first |
| Wal.UnsignedOfSigned | backend/handler/wal.hpp:110-111 | negative SKUs and quantities are in two's complement |
| Wal.FieldOffsets | backend/handler/wal.hpp:108-114 | a record is 40 bytes with its fields at offsets 0, 8, 16, 24 and 32 |
| Wal.RecordRoundTrip | backend/handler/wal.hpp:108-114 | a record's bytes decode to the record, whatever the padding, negative SKUs and quantities included |
| Wal.RecoveryIsExact | backend/handler/wal.hpp:71-86 | a log that ends in a torn record recovers exactly the records before it |
| Wal.HoldsAppend | backend/handler/wal.hpp:37-42 | appending a record's bytes appends the record |
| Wal.RecoveryGoesOn | backend/handler/wal.hpp:71-86 | whatever follows whole records in a file, recovery yields them and goes on behind them |
| Wal.RecordAfterShortWrite | backend/handler/wal.hpp:89-96 | the next record behind a write that stopped short comes back as one record, the right one exactly if every byte that carries a field is the same at that offset |
| Wal.DecodeInjective | backend/handler/wal.hpp:108-114 | two records' bytes mean the same record exactly if they agree off the padding |
| Wal.SaleAfterShortWriteIsMisread | backend/handler/wal.hpp:89-96 | a sale the worker can log comes back wrong behind any one byte left by a short write |
| Wal.WalLogger.Append | backend/handler/wal.hpp:37-42 | reports success exactly if everything was written; what was written stays |
| Wal.WalLogger.Recover | backend/handler/wal.hpp:71-86 | the read loop yields exactly the file's whole records |
| Dedup.DedupBound | backend/handler/worker.hpp:317-328 | the set never exceeds its limit; of A accepted calls at most A / 100001, rounded up, are for one id |
| Dedup.DuplicateExactly | backend/handler/worker.hpp:317-328 | a call is judged a duplicate exactly if its id was accepted since the set was last emptied |
| Worker.ProcessKeepsBooks | backend/handler/worker.hpp:189-315 | one request of any quantity keeps log, results, inventory and the shared counter consistent |
| Worker.NoOverselling | backend/handler/worker.hpp:278-315 | after any requests of any quantities, stock plus units sold is the initial stock for every SKU, stock is not negative, and replaying the log gives the stock |
| Worker.LogBeforeResultAtEveryMoment | backend/handler/worker.hpp:280-314 | at every moment inside the call the reported sales are a prefix of the log and the log trails the deductions by at most the request at hand |
| Worker.MomentsLeaveNothingOut | backend/handler/worker.hpp:225-314 | from the start of the call to its end the moments lie at most one effect apart |
| Worker.VerdictMeans | backend/handler/worker.hpp:277-314 | a request that is no duplicate is told 0 for an unknown SKU, 1 if what is left of the initial stock covers it, 2 otherwise; only a sale is logged, and a duplicate is told nothing |
| Worker.ControlIds | backend/handler/worker.hpp:189-206 | id 0 does nothing, the largest 64-bit id only acknowledges, and the benchmark's ids lie above 18e18 |
| Worker.DeductionPrecedesLog | backend/handler/worker.hpp:280-293 | there is a moment of the call with the stock lower than the log accounts for, against the documented order, if and only if the request is sold and asks for at least one unit |
| Worker.FlagStaysExact | backend/handler/worker.hpp:284-306 | for requests that give nothing back a flag is up exactly if the stock is zero |
| Worker.FlagExactUnless | backend/handler/worker.hpp:284-306 | the one exception: a negative quantity on empty stock |
| Worker.FlagNeverLowered | backend/handler/worker.hpp:284-306 | a flag never goes away and a raised one stays up |
| Worker.FastPathTurnsAwayNoSale | backend/handler/bridge.cpp:230-236 | a request turned away by the flag would have been a duplicate or got status 2, however many requests went before it |
| Worker.OneResultPerAcceptedRequest | backend/handler/worker.hpp:225-228 | results are exactly the requests the duplicate filter let through, in order |
| WorkerProgram.WorkerThread.IsDuplicate | backend/handler/worker.hpp:317-328 | answers membership and inserts, emptying a set grown past the limit |
| WorkerProgram.WorkerThread.WriteToWal | backend/handler/worker.hpp:330-347 | the file grows by the record of the request |
| WorkerProgram.WorkerThread.Process | backend/handler/worker.hpp:189-315 | the fields and atomics after the call are what the state machine says |
| WorkerProgram.WorkerThread.ProcessBatch | backend/handler/worker.hpp:155-158 | a batch does what its requests do in order |
| WorkerProgram.CrashLosesNoReportedSale | backend/handler/worker.hpp:280-314 | at whatever moment of a call the process dies, and however much of a record is torn, the bytes give back every reported sale in order and the stock up to the request at hand |
| WorkerProgram.FileReplaysToInventory | backend/handler/wal.hpp:71-86 | between calls, replaying the recovered bytes over the initial stock gives the inventory |
| Bridge.Engine.EnqueueRequest | backend/handler/bridge.cpp:214-246 | the flag decides before any queue; otherwise the shard's queue decides, and it alone changes |
| Bridge.Engine.EnqueueBatch | backend/handler/bridge.cpp:248-280 | the queues are as if each request had been offered to its shard in turn; the result counts what was taken |
| Bridge.BatchTakesFittingFront | backend/handler/bridge.cpp:256-278 | of a batch each shard takes, in order, the longest front part of its own requests that fits |
| Bridge.DispatchOne | backend/handler/bridge.cpp:106-131 | ring contents, the request in hand and queue contents stay the same sequence, and a request stays in hand exactly while the ring is full |
| Pipeline.ShardOfIsRemainder | backend/handler/bridge.cpp:239 | a SKU and its negative belong to the worker numbered by the SKU's remainder |
| Pipeline.StepMovesMessages | backend/handler/bridge.cpp:95-144 | every step of the engine adds at a shard's back, finishes at its front, or moves nothing |
| Pipeline.StepKeepsFlow | backend/handler/bridge.cpp:239-245 | conservation, the processed count and routing survive every step |
| Pipeline.NothingLostDuplicatedOrReordered | backend/handler/bridge.cpp:95-144 | in every run, per shard, processed, batch rest, ring, dispatcher's hand and queue in this order are what was accepted |
| Pipeline.PendingWasAccepted | backend/handler/bridge.cpp:239-241 | whatever is under way on a shard was accepted and, if a client's, is for a SKU of that shard |
| Pipeline.WorkerCanStep | backend/handler/worker.hpp:155-158 | a worker is never stuck: no request it may not process gets into a shard |
| Drain.StepKeepsBarriers | backend/handler/bridge.cpp:293-330 | while every reset found no older barrier, none is under way and the count is the number of this drain's barriers processed |
| Drain.DrainIsSound | backend/handler/bridge.cpp:282-366 | over any number of drains that found no older barrier under way at their reset, a count equal to the number of workers means that every shard has processed all it accepted before this drain's one barrier |
| Drain.EarlyDrainIsSound | backend/handler/bridge.cpp:282-366 | so any number of drains that begin while the engine runs are sound, also those a stop overtakes |
| Drain.ReturnWhileRunningIsSound | backend/handler/bridge.cpp:338-366 | a drain that has returned while the engine still runs was sound |
| Stop.StoppedShardsAreSettled | backend/handler/bridge.cpp:372-397 | after the stop each ring is empty, what was processed followed by what its first queue holds is what was accepted, and everything was processed exactly if those queues are empty |
| Stop.StopAfterQuietLosesNothing | backend/handler/bridge.cpp:372-397 | if the dispatchers have committed themselves to every queued entry and nothing is claimed after, a stop loses nothing |
| Schedules.WorkerRunsDry | backend/handler/worker.hpp:146-187 | from every reachable state a worker can process exactly what it was given |
| Schedules.StopCanComplete | backend/handler/bridge.cpp:372-397 | from every reachable state a stop can be carried through, without taking an entry no dispatcher has committed itself to |
| Limits.StopCanLoseUncommitted | backend/handler/bridge.cpp:102-143 | from every reachable state, with any number of workers, a stop can leave exactly those entries unprocessed |
| Limits.StopLosesNothingExactly | backend/handler/bridge.cpp:102-143 | every stop processes everything accepted if and only if the dispatchers have committed themselves to every queued entry |
| FalseDrain.DrainSchedule | backend/handler/bridge.cpp:293-349 | from every reachable state in which a drain is about to begin, with room in the queues, its count can reach exactly what the workers can get |
| FalseDrain.ReachedCountMeans | backend/handler/bridge.cpp:338-349 | a stopped engine's drain counts no more barriers than the workers could get when it began, and with no older one among them every shard is drained |
| FalseDrain.DrainCanLieExactly | backend/handler/bridge.cpp:282-366 | a drain about to begin can see its count reached with a shard not drained if and only if the workers can get as many barriers as there are workers, an older one among them, and every queue takes the drain's barrier |
| FalseDrain.RunningDrainCannotLie | backend/handler/bridge.cpp:282-366 | while the engine runs that condition never holds |
| FalseDrain.LateDrainCanLie | backend/handler/bridge.cpp:338-349 | with any number of workers such a false report happens in a run from the start |
| Progress.EngineCatchesUp | backend/handler/bridge.cpp:95-144 | while the engine runs, from every reachable state everything accepted can still be processed |
| Progress.DrainCanComplete | backend/handler/bridge.cpp:282-366 | while it runs, from every reachable state without a drain one can be called and return with everything processed and one barrier sent to each shard |
| Progress.DrainLoop | backend/handler/bridge.cpp:338-349 | a reached count ends the drain; a short one goes on waiting while the engine runs and gives up when it does not |
| Progress.CapacitiesHold | backend/handler/bridge.cpp:153 | no queue holds more than 4096, no ring more than 16384, no batch more than 64, and a queue takes requests up to its capacity |
| EngineLedger.EngineNeverOversells | backend/handler/worker.hpp:278-308 | in every run, whatever the quantities, only a SKU's owner changes its copy; owner's stock plus sold is the initial stock, not negative; the shared counter is the sum over all SKUs |
| EngineLedger.FlagsExactInEveryRun | backend/handler/worker.hpp:284-306 | in every state reached by requests that give nothing back a flagged SKU's flag is up if and only if its owner's stock is zero, and once up it stays up |
| EngineLedger.FastPathIsSafe | backend/handler/bridge.cpp:230-236 | in every such state a request turned away by the flag could not have been sold later |
| EngineLedger.DrainReportsResults | backend/handler/worker.hpp:310-314 | each worker is where its processed messages lead, so a completed drain has reported everything before the barrier |
| EngineLedger.SoldIsStockGone | backend/handler/worker.hpp:282 | the first k workers' sales add up to what left the stock of the SKUs they own |
| RedisStore.UniformConservation | backend/cache/redis.go:33-86 | with one quantity, any interleaving and repetition of the scripts keeps stock not negative and stock plus quantity times buyers constant |
| RedisStore.DeductKeepsAccounts | backend/cache/redis.go:33-58 | a deduction of any quantity keeps stock plus live reservations |
| RedisStore.RollbackKeepsAccountsExactly | backend/cache/redis.go:79-85 | a rollback keeps it exactly if it finds no reservation or names the reserved quantity |
| RedisStore.RepeatedRollbackTakesEffectOnce | backend/cache/redis.go:163-174 | a rollback repeated without a new reservation in between changes nothing |
| RedisStore.MixedConservation | backend/cache/redis.go:33-86 | any interleaving of scripts of any quantities keeps stock plus live reservations throughout if and only if every rollback names the quantity its user's reservation took |
| RedisStore.DeductGrantsOnce | backend/cache/redis.go:33-58 | a deduction grants exactly when it enters the user, changes nothing otherwise, turns the same user away afterwards and never drives stock below zero |
| RedisStore.DeductStatusMeans | backend/cache/redis.go:33-58 | status 1, 0 and -1 in terms of what was there and what is reserved: enough left, too little left, the user has a reservation |
| RedisStore.DeductNeedsStockEntry | backend/cache/redis.go:38-42 | -2 exactly for a missing stock entry and a user who has not bought |
| RedisStore.RollbackStatusMeans | backend/cache/redis.go:79-85 | 1 exactly for a user with a reservation, who then has none; a missing stock entry counts from zero |
| RedisStore.RollbackUndoesDeduct | backend/cache/redis.go:33-86 | rolling back what a deduction took gives back stock, buyers and pending set |
| RedisStore.SkuStore.RollbackInventory | backend/cache/redis.go:157-182 | however many of three calls reach the server and whichever replies are lost, the rollback takes effect once; unanswered, it becomes a dead letter |
| Reservation.GrantIsDeductScript | backend/cache/redis.go:33-58 | the protocol's reservation step is the deduct script on that SKU's keys and leaves other SKUs alone |
| Reservation.RolledBackIsRollbackScript | backend/cache/redis.go:79-85 | the protocol's rollback step is the rollback script |
| Reservation.StepKeepsInv | backend/handler/seckill.go:452-510 | every step of handlers, verdicts, writer, cleanup and crash, of rollback calls that may run long after they were given up, and of a sweeper whose list, lookup and rollback are separate steps, keeps the reservation invariant |
| Reservation.OrdersFitReservations | backend/handler/seckill.go:168-174 | orders with live reservations ask for no more than the live quantity |
| Reservation.NoOrderWithoutReservation | backend/handler/seckill.go:608-683 | in every run under the three premises each order's reservation is live, stock plus live reservations is the initial stock, and the ordered quantity is at most what left the stock |
| Refunds.RefusalGivesBack | backend/handler/seckill.go:495-510 | a request refused by the engine, or failed by its verdict, begins a rollback whose first answered call gives back units, claim and pending entry |
| Refunds.RollbackGivesUp | backend/cache/redis.go:163-181 | an unanswered call leaves one try less, the last none |
| Refunds.LostTasksLeaveTheRest | backend/handler/worker.hpp:226-228 | a duplicate the engine drops, and a crash, lose tasks and leave the reservation |
| Refunds.SweeperRecovers | backend/handler/seckill.go:626-679 | what such a loss leaves pending without an order the sweeper lists, looks up and gives back |
| Refunds.OnlyTheseChange | backend/handler/seckill.go:254-323 | which steps may change stock, claims, orders and pending entries, and how; a reservation begins a task exactly if it is granted and its reply arrives |
| Refunds.EveryTaskCanGoOn | backend/handler/seckill.go:452-510 | no task of the protocol is ever stuck |
| Refunds.NothingLeaks | backend/handler/seckill.go:452-510 | in every run that loses nothing each live reservation's request has an order or a task that will write it or take it back, and each pending entry a task that will remove it |
| ReservationLimits.InFlightReachesOrder | backend/handler/seckill.go:157-217 | a request in flight can always go on to its order |
| ReservationLimits.UnfairReserve | backend/cache/redis.go:79-85 | granting a reservation while a rollback or a listed member of the user can still take it back leads on to an order without a reservation |
| ReservationLimits.UnfairLostReserve | backend/cache/redis.go:128-140 | the same where the reply is lost, by way of the pending entry or the wrong refund it leaves |
| ReservationLimits.UnfairLookup | backend/handler/seckill.go:650-679 | looking up a member without an order that is still in flight leads on to an order without a reservation |
| ReservationLimits.FairExactly | backend/handler/seckill.go:452-510 | in every state that runs within the premises reach, a step keeps to them if and only if no way on within them breaks the promise |
| Writers.FirstInsertWins | backend/handler/seckill.go:323 | inserting on conflict do nothing keeps existing rows and the first new row of an id |
| Writers.DbWorker.Receive | backend/handler/seckill.go:354-357 | no received row is lost between batch and table |
| Writers.DbWorker.Flush | backend/handler/seckill.go:315-343 | the table gets the batch row by row and the batch is emptied |
| Writers.DbWorker.Tick | backend/handler/seckill.go:346-361 | the table is what inserting every received row one by one gives |
| Writers.RemoveEachRemovesSales | backend/handler/seckill.go:254-271 | what leaves the pending set is exactly the sales' members |
| Writers.FlushCleanup | backend/handler/seckill.go:241-277 | exactly the sales' members leave the pending set, as with one removal for each task; one rollback is started for each task that is not a sale, in task order |
| OrderDrain.StepKeepsInv | engine/src/order_worker.cpp:123-212 | every step of producers and workers keeps the counters, the queue and the table of ids consistent |
| OrderDrain.EveryThreadCanStep | engine/src/order_worker.cpp:123-224 | no producer, worker or main thread is ever stuck: each producer about to publish holds an unpublished ticket of its own in the queue |
| OrderDrain.FailedPopIsExactOnceDone | engine/src/order_worker.cpp:129-134 | once the producers are done a failed dequeue means an empty queue |
| OrderDrain.FinalAssertionsHold | engine/src/order_worker.cpp:219-252 | for any number of threads and any interleaving both final assertions hold, and orders written are the distinct ids among the accepted requests |
| OrderDrainRuns.CanFinish | engine/src/order_worker.cpp:123-224 | from every reachable state all producers can join and all workers leave |
| OrderDrainRuns.EverythingCanBeWorkedOff | engine/src/order_worker.cpp:181-224 | there is a run in which every item is accepted, consumed, and written or dropped as a duplicate |
| SequenceMonitor.CountersBalance | engine/src/bridge.cpp:90-100 | expected less one is gaps plus received less duplicates, and is the highest id so far |
| SequenceMonitor.CountersMean | engine/src/bridge.cpp:90-100 | the gap counter is the missing ids plus the late ones, the duplicate counter the repeats plus the late ones |
| SequenceMonitor.CleanMeansInOrder | engine/src/bridge.cpp:90-100 | both counters are zero exactly for the stream 1, 2, ..., n |
| SequenceMonitor.GapIsNotLoss | engine/src/bridge.cpp:95-98 | a swap of two ids counts a gap though nothing is missing |
| BatchDispatcher.BarrierSplitsEveryQueue | engine/src/bridge.cpp:72-87 | every worker gets a barrier after all its earlier requests and before all its later ones |
| BatchDispatcher.RoutedOnce | engine/src/bridge.cpp:102-123 | an ordinary request goes to one worker, a barrier to all |
| BatchDispatcher.RoutedByRemainder | engine/src/bridge.cpp:106 | a worker is given every barrier and every request for its SKUs, and nothing else |
| BatchDispatcher.TargetIsLastBarrier | engine/src/bridge.cpp:73-74 | the target is the sequence of the last barrier |
| BatchDispatcher.NoBarrierNoTarget | engine/src/bridge.cpp:89-100 | without a barrier the target stays and the monitor sees every id in order |
| BatchDispatcher.IdsAppend | engine/src/bridge.cpp:86-90 | a barrier is not among the ids the monitor sees |
| BatchDispatcher.Dispatcher.EnableCorrectnessCheck | engine/src/bridge.cpp:368-377 | turning the check on starts the counters afresh, turning it off leaves them |
| BatchDispatcher.Dispatcher.DispatchBatch | engine/src/bridge.cpp:69-124 | every worker's queue grows by its part of the batch in order; the monitor saw the ordinary ids in order; the target is the last barrier's |
| IntentCodec.DecimalRoundTrip | engine/src/core_consumer.cpp:94-98 | a printed number is read back |
| IntentCodec.ValueAppend | engine/src/core_consumer.cpp:135-139 | the value read is the decimal one |
| IntentCodec.ParseU64 | engine/src/core_consumer.cpp:133-142 | accepts exactly the non-empty digit strings, and yields the value modulo 2^64 |
| IntentCodec.ParseU32 | engine/src/core_consumer.cpp:144-150 | accepts exactly if that remainder is below 2^32 |
| IntentCodec.ReadExactlyBelowCut | engine/src/core_consumer.cpp:133-150 | a number is read exactly if and only if it fits its width |
| IntentCodec.OverlongNumberIsMisread | engine/src/core_consumer.cpp:144-150 | 2^64 + 7 passes the 32-bit check and is read as 7 |
| IntentCodec.JoinOfFields | engine/src/core_consumer.cpp:154-164 | the fields are free of commas and join to the payload |
| IntentCodec.FieldsOfJoin | engine/src/core_consumer.cpp:154-164 | fields free of commas are recovered from their join |
| IntentCodec.Split | engine/src/core_consumer.cpp:154-164 | the loop finds the first five fields |
| IntentCodec.PrintReadRoundTrip | engine/src/core_consumer.cpp:94-98 | every in-range intent is read back as it was printed |
| IntentCodec.PrintedFields | engine/src/core_consumer.cpp:94-98 | the printed fields are request, user, SKU, quantity and time, in this order |
| IntentCodec.AcceptedExactly | engine/src/core_consumer.cpp:166-175 | exactly which payloads are accepted |
| IntentCodec.ShortAndLongPayloads | engine/src/core_consumer.cpp:166-174 | a missing or empty time reads as 0, and fields after it are ignored |
| IntentCodec.ParseIntent | engine/src/core_consumer.cpp:153-176 | accepts exactly the well-formed payloads and yields their fields; a rejected one leaves the fields read before the fault |

## Left out

- Wrap-around of 64-bit positions and the signed difference that detects a lap: positions are unbounded tickets.
- Weak memory: steps interleave sequentially consistently. The release store of a cell's sequence and the acquire load that reads it, and the same pair on the ring's indices, are what justify this for the data.
- Progress under interference: no claim that a retry loop, a spin or a drain ends whatever the other threads do. What a thread does alone, and what can still happen from every reachable state, is proved.
- Mpmc.MpmcQueue.TryEnqueue: one thread alone; interference is the subject of `MpmcSteps`.
- Mpmc.MpmcQueue.TryDequeue: one thread alone; interference is the subject of `MpmcSteps`.
- Spsc.SpscQueue.TryEnqueue: the other side's index may be stale, but its copy loop does not run during the call; that is the subject of `SpscSteps`.
- Mpmc.MpmcQueue.Size: one thread alone; the bound under interference is `MpmcSteps.SizeOverApproximates`.
- Spsc.SpscQueue.TryEnqueueBatch: as the single call: the index may be stale, the other side's copy loop does not run during the call.
- Spsc.SpscQueue.TryDequeue: as the enqueue calls.
- Spsc.SpscQueue.TryDequeueBatch: as the enqueue calls.
- Spsc.SpscQueue.Size: both indices are read in one state; a third thread's reading of them is not modelled.
- Bridge.Engine.EnqueueBatch: one client alone, and no dispatcher takes from the queues during the batch; see `Pipeline`.
- Bridge.DispatchOne: the spin ends after a given number of looks, with the request still in hand if the ring stayed full; time stamps and counters are not part of it.
- Bridge.Engine.EnqueueRequest: one client alone, and the request's time stamps are not part of it; concurrent clients are the claim and publication steps of `Pipeline`.
- In `Pipeline` a client's look at the running flag and the sold-out flags is not a step: claims are possible at any time, also after the stop, which only adds runs. A refusal by a full queue changes nothing and is not a step either.
- In `Pipeline` a claimed entry may be published at any time; a drain may go on before its barrier is published, which only adds runs. A second concurrent drain returns at once in the source and is not a step.
- The result queue between worker and Go consumer: a result is appended when the worker's spin on that queue ends.
- Restarting a stopped engine, `WarmUpEngine`, `WarmUpInventory` (resets), the benchmark mode for ids above 18e18, and the worker's correctness check (its pointers are never set).
- `IsEngineIdle` and `GetEngineStatus` as drain tests: the dispatcher's hand is invisible to them.
- WorkerProgram.WorkerThread.WriteToWal: every append succeeds; a failed one is ignored by the source and then the log misses the sale (`Wal.RecordAfterShortWrite` says what follows it).
- WorkerProgram.WorkerThread.Process: as `WriteToWal`, every append succeeds; benchmark ids are left out.
- WorkerProgram.WorkerThread.ProcessBatch: as `WriteToWal`, every append succeeds.
- Wal.WalLogger.Append: opening and flushing files, the unused write buffer and `Fsync` are not modelled.
- The Lua scripts' number conversion (doubles), the score of the pending set and its 30-second age test, the one-minute done key, the dead letter's text and the sweeper's handling of malformed members.
- RedisStore.SkuStore.RollbackInventory: back-off times are left out; which calls arrive and which replies are lost is a parameter. A call that arrives after the method has given up is a step of `Reservation`, not of the method.
- Writers.DbWorker.Flush: a failed insert, whose error the source ignores, is a crash of the task in `Reservation`, not a case here.
- The Redis circuit breaker, HTTP, configuration, metrics, logging and the monitor thread.
- Widths of stock, quantity and counters in the inventories (overflow), and the most negative SKU, whose absolute value is undefined in the source.
- OrderDrain.FinalAssertionsHold: `VyukovMPMCQueue`, back-off and tracing come from headers that are not part of this model; the queue is taken to be the same ticket queue, and `simulate_mysql_write` is one step.
- BatchDispatcher.Dispatcher.DispatchBatch: only while running, when the spin on a full worker queue ends; the reached count it resets is shared with the workers and not part of it.
- The NATS client stub and acknowledgement of messages in `core_consumer.cpp`, and its routing by user.
