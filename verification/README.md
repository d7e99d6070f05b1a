# iCEFARM verification

iCEFARM lends FPGA boards to clients and runs batches of circuits on them. This project models the
parts of it whose correctness depends on many steps taken together, and proves what those parts keep:

- **The client's batch scheduler.** `MappedQueues.dfy` is the insertion-ordered dictionary of lists,
  `EvaluationBundle.dfy` the greedy packer on top of it, `BatchFactory.dfy` the accounting of results.
  `BundleRuns.dfy`, `BundleBest.dfy`, `BundleExchange.dfy`, `BundleThree.dfy`, `BundleOrder.dfy` and
  `BundleDrain.dfy` reason about batches and whole iterations of a bundle, `FactoryRuns.dfy`,
  `FactoryOrder.dfy` and `WatchdogRuns.dfy` about every interleaving of the sender, the receiver, the
  watchdog and the consumer.
- **The reservation database.** `Reservations.dfy` has the three tables, the procedures, the cascades
  and the triggers; `ReservationRuns.dfy`, `ReservationLease.dfy` and `ReservationMeans.dfy` reason about
  every run of serial transactions, `Availability.dfy` about a client that waits for boards.
- **The worker's upload pipeline.** `Upload.dfy`: the bitstream queue, the run loop, flushing, reboots;
  `UploadReboots.dfy`: what becomes of a reboot.
- **The wire.** `WireFormat.dfy`: the firmware's status lines and sample printer, the worker's line
  reader, the parser; `LineParser.dfy`: the parser on every list, and bytes back from text.
- **The firmware's transfer state machine.** `Firmware.dfy`, shared by both firmwares;
  `FirmwareProgress.dfy`: that it gets on.
- **The event session.** `Session.dfy`: one client's message queue, sockets and concurrent flushes;
  `SessionOrder.dfy`: in which order its events go out.

Objects that the program updates in place are classes here, and each of their methods is tied to a
function or relation on values (`Processed`, `NextBatch`, `Executes`, `Turn`, `AfterTake`, ...). The
run modules use the same functions and relations as the steps of a transition system, so a theorem
about all runs is a theorem about all sequences of those methods' effects. Whatever the program does
while it holds a lock is one step. Clocks, answers of other machines and the order in which a set is
visited are inputs of the steps, so the theorems hold for all of them.

## Results in short

- A bundle gives no device more than the batch size and keeps at least one k-th of the best feasible
  batch, k being the largest serial set. The "maximum" of its documentation holds whenever, in
  search order, any two sets share nested parts with each earlier one (`MaximumWhenComparable`), so for
  disjoint sets, and whenever all sets share a device (`MaximumWithCommonDevice`), but not in general
  (`NotMaximum`, `TwoWouldFit`). For bundles over three sets these conditions are exact (`ThreeKeysIff`).
- `t` batches are produced only if more than `(t - 1) * batch_size` evaluations were given, counted
  per device, for the devices of the first evaluation (`BatchCountBound`).
- The documentation of `MappedQueues` promises that keys with empty lists are skipped. Iteration stops
  at the first of them; `VisibleIsComplete` says exactly when that makes no difference. A bundle can
  therefore leave evaluations behind for good: `DrainsIffNoGap` and, over disjoint sets, `DrainsIff`
  give the exact conditions, `DrainCanFail` an input, and `OneSetDrains` and `RoundRobinDrains` show
  that both drivers of the repository are safe.
- Every dispatched (device, evaluation) pair is awaited, buffered or yielded, exactly once; when
  `getResults` returns, every pair of every batch was yielded once; broken devices do not strand a run;
  a balanced factory never owes `target + 1` batches on a device.
- A consumer is told of a failure exactly for what was given up: every pair failed at once is delivered as
  a failure, and only broken devices deliver failures.
- The watchdog gives up a device that delivered results only after a full timeout of silence. A device
  that had nothing to do is granted no such time when it is sent work again: `GraceIff` says exactly when
  it can be given up, `IdleBoardGivenUp` is a run in which that happens.
- No double booking, in exactly the runs whose workers report only free boards available; a worker's
  report between any two reservations of a board; a ledger of reservation rows; all-or-nothing
  reservations, never of a worker that shuts down; and leases lost to expiry only after four notices went unanswered, so never by a client
  that extends within fifteen minutes of a notice. A lease that nobody extends goes with the first expiry
  past its end; a worker goes exactly for lack of a sign of life (`OverdueIsGone`, `TimedOutIff`).
- No lost wake-up: once a waiting client has heard everything, it is released if enough boards are
  available, although each announcement overwrites the one before. The documentation of the wait promises
  a release only once enough are available. `TruthfulIff` says exactly when that holds; for a client that
  has heard everything, if and only if the last number it heard is below the amount it waits for
  (`UpToDateTruthfulIff`). `StaleRelease` is a run in which it is not.
- Accepted bitstreams are never lost. A second copy exists of exactly those that a reboot from outside
  found current, so everything is evaluated exactly once if and only if none did (`ExactlyOnceIff`);
  `OutsideRebootDuplicates` is a run in which one does.
- A reboot under way can get through if and only if it has not clashed with another one, that is, no upload
  has failed while an outside reboot waited for its thread, and no outside reboot has taken the device's
  lock before a thread that had begun to reboot by itself (`GetsThroughIff`). Otherwise the two threads wait
  for each other for ever: `LateFailureSticks` and `OvertakenSticks` are runs in which that happens.
- Samples survive printing between status lines, arbitrary chunking, line splitting and parsing. Chunking
  is immaterial exactly for texts without both kinds of quote (`ChunksMatterIff`).
- The firmware flashes only whole images, each a contiguous window of what it read; without timeouts
  and disconnects these are the worker's files in order, all of them after at most seven turns for each
  (`FilesAreFlashed`). After a timeout or a disconnect it starts afresh (`BrokenIsDropped`, `ReadsSoon`).
- A session delivers every message once over all interleavings. Without failing emits a client receives
  distinct events in send order if and only if each is emitted by the oldest flush that still holds any
  (`OrderIffOldest`). After one failing emit that does harm the run can always end out of order
  (`HarmfulFailureReorders`), and without further harm it always does (`OneHarmIsEnough`); a second
  harmful failure can undo it (`SecondFailureRestores`). `InOrderIff` says exactly when it is too late.

## Model

| member | source | states |
|---|---|---|
| `MappedQueuesModel.MappedQueues.constructor` | src/icefarm/utils/utils.py:165-166 | starts without keys |
| `MappedQueuesModel.MappedQueues.Append` | src/icefarm/utils/utils.py:168-175 | a new key goes to the end of the key order, the value to the end of its list; everything else stays |
| `MappedQueuesModel.MappedQueues.Pop` | src/icefarm/utils/utils.py:177-189 | the last `amount` items, last first (item `i` of the result is item `i` from the end), or all there are, also for a missing key or an amount below 1; no other list and no key changes |
| `MappedQueuesModel.MappedQueues.Keys` | src/icefarm/utils/utils.py:197-201 | the longest prefix of the key order without an empty list |
| `MappedQueuesModel.VisibleFrom` | src/icefarm/utils/utils.py:197-198 | iteration yields a prefix of the key order, only keys with non-empty lists, and stops at the first empty one |
| `MappedQueuesModel.VisibleUnique` | src/icefarm/utils/utils.py:197-198 | those three facts determine what iteration yields |
| `MappedQueuesModel.VisibleIsComplete` | src/icefarm/utils/utils.py:159-164 | the documented "empty lists count as missing keys" holds of iteration if and only if no empty list precedes a non-empty one |
| `MappedQueuesModel.VisibleMonotone` | src/icefarm/utils/utils.py:197-198 | emptying lists can only shorten what iteration yields |
| `MappedQueuesModel.AppendedContents` | src/icefarm/utils/utils.py:174-175 | appending adds exactly the one item to the contents over all keys |
| `MappedQueuesModel.PopConserves` | src/icefarm/utils/utils.py:177-189 | contents before a pop are contents after it plus what was returned, as multisets |
| `MappedQueuesModel.PoppedIsReversedTail` | src/icefarm/utils/utils.py:177-189 | the returned items and the remaining list are the old list, as multisets |
| `MappedQueuesModel.Batch` | src/icefarm/utils/utils.py:206-211 | list `j` holds exactly the items at positions `j`, `j + amount`, `j + 2 * amount`, ..., in order |
| `MappedQueuesModel.StrideAt` | src/icefarm/utils/utils.py:206-211 | those positions exactly: list `j` has an item `i` if and only if there is a position `j + i * amount`, and it is the one there |
| `MappedQueuesModel.StrideLengths` | src/icefarm/utils/utils.py:206-211 | earlier lists of the round-robin split are never shorter than later ones |
| `MappedQueuesModel.DealOne` | src/icefarm/utils/utils.py:208-209 | item number `i` extends list `i % amount` and no other |
| `EvaluationBundleModel.EvaluationBundle.constructor` | src/icefarm/client/lib/BatchClient.py:50-60 | the queues hold the evaluations by serial set in input order; the lookup finds every id |
| `EvaluationBundleModel.EvaluationBundle.Next` | src/icefarm/client/lib/BatchClient.py:62-82 | one call packs: it visits the visible keys by size, caps every device, fills a device of every visible key it leaves waiting, conserves evaluations, hands out evaluation `i` of a group from position `i` from the end of its queue, and stops and sets `empty` exactly when nothing is visible |
| `EvaluationBundleModel.EvaluationBundle.FillInOrder` | src/icefarm/client/lib/BatchClient.py:67-77 | the loop over the sorted keys computes the batch and the remaining queues of `FillAll` |
| `EvaluationBundleModel.EvaluationBundle.FillFrom` | src/icefarm/client/lib/BatchClient.py:69-77 | one turn of the loop: the counter keeps the load of every device, and a key without slots is passed over |
| `EvaluationBundleModel.MinSlots` | src/icefarm/client/lib/BatchClient.py:69 | the smallest number of free slots over the devices of the key |
| `EvaluationBundleModel.AddToAll` | src/icefarm/client/lib/BatchClient.py:75-76 | the counter grows by the number of commands on the key's devices and nowhere else |
| `EvaluationBundleModel.Slots` | src/icefarm/client/lib/BatchClient.py:69 | attained by a device of the key and exceeded by none |
| `EvaluationBundleModel.SortBySizeSorts` | src/icefarm/client/lib/BatchClient.py:67 | the search order is a permutation of the visible keys with sizes ascending |
| `EvaluationBundleModel.SortKeepsKeys` | src/icefarm/client/lib/BatchClient.py:67 | every visible key is searched exactly once |
| `EvaluationBundleModel.NextBatchPacks` | src/icefarm/client/lib/BatchClient.py:62-82 | every batch takes evaluations off the ends of visible queues only, gives no device more than the batch size, leaves a key waiting only if one of its devices is full, conserves evaluations and every weighted count of them, and is empty exactly when nothing is visible |
| `EvaluationBundleModel.PackedFromTheEnds` | src/icefarm/client/lib/BatchClient.py:68-76 | every group holds the evaluations from the end of its queue, the last one first, and the queues keep all others in place |
| `BundleOrder.SortRanks` | src/icefarm/client/lib/BatchClient.py:67 | the sort is stable: of two sets the smaller goes first, of equally large ones the one that came first |
| `BundleOrder.BatchRanks` | src/icefarm/client/lib/BatchClient.py:67-77 | a batch serves its sets in that order, each at most once |
| `EvaluationBundleModel.FillAllFills` | src/icefarm/client/lib/BatchClient.py:68-76 | after any part of the search order: taken from the visited keys only, capped, saturated |
| `EvaluationBundleModel.FillAllConserves` | src/icefarm/client/lib/BatchClient.py:68-76 | at every point of the loop, queues plus batch are the original queues |
| `EvaluationBundleModel.HitsBound` | src/icefarm/client/lib/BatchClient.py:66-76 | evaluations counted once per device of a set come to at most, and for full devices exactly, the batch size per device |
| `EvaluationBundleModel.FromEvaluationsHolds` | src/icefarm/client/lib/BatchClient.py:50-53 | the fresh queues hold exactly the given evaluations, each under its own serial set |
| `EvaluationBundleModel.FromEvaluationsKeys` | src/icefarm/client/lib/BatchClient.py:50-53 | no fresh list is empty, and the first key is the first evaluation's |
| `EvaluationBundleModel.FromEvaluationsSum` | src/icefarm/client/lib/BatchClient.py:50-53 | weighted counts over the fresh queues are those over the input list |
| `BundleRuns.GreedyWithinFactor` | src/icefarm/client/lib/BatchClient.py:62-85 | one batch holds at least one k-th of what any feasible batch from the same visible queues holds, k being the largest visible serial set |
| `BundleRuns.RunConserves` | src/icefarm/client/lib/BatchClient.py:50-85 | batches so far plus what still waits are the input, as multisets, at every point of every run |
| `BundleRuns.VisibleShrinks` | src/icefarm/client/lib/BatchClient.py:62-85 | a key seen after a call was seen before it |
| `BundleRuns.WaitingKeyPaidFor` | src/icefarm/client/lib/BatchClient.py:68-76 | a visible key left waiting cost its devices at least one full batch in that call |
| `BundleRuns.SeenKeyPaidFor` | src/icefarm/client/lib/BatchClient.py:62-85 | a key still seen after `n` calls has had `n` full batches taken from the demand on its devices |
| `BundleRuns.BatchCountBound` | src/icefarm/client/lib/BatchClient.py:62-85 | batch number `n + 1` exists only if `n * batch_size` is less than the input's demand on the devices of the first evaluation |
| `BundleRuns.StrandedForever` | src/icefarm/utils/utils.py:197-198 | a non-empty list behind an empty one is never served again, however many calls follow |
| `BundleRuns.DrainsIffNoGap` | src/icefarm/client/lib/BatchClient.py:62-85 | a run that stopped has served everything if and only if no state on the way had a non-empty list behind an empty one |
| `BundleBest.MaximumWhenDisjoint` | src/icefarm/client/lib/BatchClient.py:63-66 | over pairwise disjoint serial sets no feasible batch is larger than the one produced: the documented maximum |
| `BundleExchange.MaximumWhenComparable` | src/icefarm/client/lib/BatchClient.py:63-66 | the documented maximum also holds whenever, in search order, the parts that any two later sets share with an earlier one are nested |
| `BundleExchange.GreedyIsMaximum` | src/icefarm/client/lib/BatchClient.py:67-77 | over such sets no choice of amounts within capacities and supplies has a larger total than the greedy one |
| `BundleExchange.Exchange` | src/icefarm/client/lib/BatchClient.py:67-77 | where a feasible choice first differs from the greedy one it can be moved a step towards it without loss |
| `BundleExchange.BatchIsGreedy` | src/icefarm/client/lib/BatchClient.py:67-77 | in its turn every set gets all its evaluations or fills one of its devices |
| `BundleBest.TwoWouldFit` | src/icefarm/client/lib/BatchClient.py:63-82 | whenever the first of three equally large sets meets two others that do not meet each other, one evaluation is sent where two fit |
| `BundleThree.MaximumWithCommonDevice` | src/icefarm/client/lib/BatchClient.py:63-66 | the documented maximum holds whenever one device is in every visible set |
| `BundleThree.OnlyTwoSent` | src/icefarm/client/lib/BatchClient.py:63-82 | of three visible sets without a common device, the later two sharing parts with the first that are not nested, with two, one and one evaluations and batch size 2, only the two of the first are sent |
| `BundleThree.ThreeFit` | src/icefarm/client/lib/BatchClient.py:63-66 | where one of each is a feasible batch of three |
| `BundleThree.ThreeKeysIff` | src/icefarm/client/lib/BatchClient.py:63-66 | over three sets the documented maximum holds for all evaluations and batch sizes if and only if the later two share nested parts with the first or one device is in all three |
| `BundleBest.NotMaximum` | src/icefarm/client/lib/BatchClient.py:63-82 | a concrete input on which the documented maximum is missed by the whole factor |
| `BundleDrain.StepRounds` | src/icefarm/client/lib/BatchClient.py:62-85 | over disjoint sets a call takes exactly one round off every visible key and leaves the others alone |
| `BundleDrain.StepKeepsOrder` | src/icefarm/client/lib/BatchClient.py:62-85 | whether the rounds still owed are non-increasing in key order never changes |
| `BundleDrain.DrainsIff` | src/icefarm/client/lib/BatchClient.py:62-85 | over disjoint sets nothing is left behind if and only if no set needs more batches than one that appeared before it |
| `BundleDrain.BatchCountExact` | src/icefarm/client/lib/BatchClient.py:62-85 | over disjoint sets there are exactly as many batches as the first set needs |
| `BundleDrain.OneSet` | examples/pulse_count_driver/pulse.py:129-132 | evaluations on one common set end up in one list, in input order |
| `BundleDrain.OneSetDrains` | examples/pulse_count_driver/pulse.py:129-132 | they are all served, in exactly `ceil(n / batch_size)` batches |
| `BundleDrain.DealtQueues` | examples/pulse_count_driver/pulse.py:133-140 | evaluations dealt one board each make one list per board, in board order |
| `BundleDrain.DealtDrains` | examples/pulse_count_driver/pulse.py:133-140 | they are all served whenever no board gets more than an earlier one |
| `BundleDrain.DealToBoards` | examples/pulse_count_driver/pulse.py:133-140 | the driver's round-robin loop builds exactly the dealt evaluations |
| `BundleDrain.DealtInTurn` | examples/pulse_count_driver/pulse.py:133-140 | every circuit is dealt just once, circuit `i` to board `i` modulo the number of boards |
| `BundleDrain.RoundRobinDrains` | examples/pulse_count_driver/pulse.py:133-140 | a round-robin run serves every circuit, for any number of circuits, boards and any batch size |
| `BundleDrain.DrainCanFail` | src/icefarm/utils/utils.py:159-164 | two circuits for one board behind one circuit for another, one per batch: every run that stops has dropped one |
| `BundleDrain.Exhaust` | src/icefarm/client/lib/BatchClient.py:62-85 | iterating a bundle ends, its batches are a run without empty batches, and `empty` is set |
| `BundleDrain.CallShrinks` | src/icefarm/client/lib/BatchClient.py:62-85 | every call that returns a batch strictly shrinks what waits |
| `BatchFactoryModel.BatchFactory.constructor` | src/icefarm/client/lib/BatchClient.py:97-113 | starts with nothing awaited, buffered or broken |
| `BatchFactoryModel.BatchFactory.ProcessResult` | src/icefarm/client/lib/BatchClient.py:145-157 | an awaited result is taken off, stamped and buffered; any other changes nothing |
| `BatchFactoryModel.BatchFactory.AddBatch` | src/icefarm/client/lib/BatchClient.py:176-194 | every pair of the batch is awaited, new devices get a time, and exactly the pairs on broken devices are failed at once |
| `BatchFactoryModel.BatchFactory.AddGroupOf` | src/icefarm/client/lib/BatchClient.py:180-191 | the inner loop over one entry's serials, in any order of the set |
| `BatchFactoryModel.BatchFactory.AddSerial` | src/icefarm/client/lib/BatchClient.py:181-188 | only a device not heard of before gets a new time of last result |
| `BatchFactoryModel.BatchFactory.ReadyForBatch` | src/icefarm/client/lib/BatchClient.py:217-244 | the three factories: quick is always ready, patient if and only if no device owes anything, balanced if and only if every device owes less than `target` batches (or one owes more than `target`, which never happens) |
| `BatchFactoryModel.PatientReadyIff` | src/icefarm/client/lib/BatchClient.py:225-226 | "nothing is awaited" means that no device owes a single result |
| `BatchFactoryModel.BalancedReadyIff` | src/icefarm/client/lib/BatchClient.py:238-244 | the truth value of the difference, in terms of what each device owes, for every backlog |
| `BatchFactoryModel.BatchFactory.HighestQueued` | src/icefarm/client/lib/BatchClient.py:242 | the largest number of results any device owes |
| `BatchFactoryModel.BatchFactory.Scan` | src/icefarm/client/lib/BatchClient.py:120-138 | the devices whose reboot failed become broken, and the list handed on holds exactly what they await |
| `BatchFactoryModel.BatchFactory.ListIds` | src/icefarm/client/lib/BatchClient.py:137-138 | lists exactly the ids one device awaits |
| `BatchFactoryModel.BatchFactory.Drain` | src/icefarm/client/lib/BatchClient.py:162-174 | hands out all buffered results in order and ends exactly when the bundle is empty and nothing is awaited |
| `BatchFactoryModel.EvaluateBatch` | src/icefarm/client/lib/BatchClient.py:271-276 | one request per evaluation, to its devices that are not broken |
| `BatchFactoryModel.SendBatch` | src/icefarm/client/lib/BatchClient.py:282-291 | the requests of a batch ask for exactly its pairs on devices that are not broken |
| `FactoryRuns.StepKeepsInv` | src/icefarm/client/lib/BatchClient.py:115-205 | each atomic step of any thread keeps conservation, the accounting, the broken-device rule, the sent-or-failed split, the clocks and the backpressure bound |
| `FactoryRuns.TraceKeepsInv` | src/icefarm/client/lib/BatchClient.py:115-205 | so they hold in every state of every interleaving |
| `FactoryRuns.ExactlyOnce` | src/icefarm/client/lib/BatchClient.py:145-205 | dispatched pairs are, as multisets, those awaited, buffered and yielded, and every yielded device belongs to its evaluation's set |
| `FactoryRuns.FinishedMeansDelivered` | src/icefarm/client/lib/BatchClient.py:159-174 | when `getResults` has returned, every pair of every batch was yielded exactly once; the rest is still in the bundle |
| `FactoryRuns.Backpressure` | src/icefarm/client/lib/BatchClient.py:238-244 | the highest backlog stays below `(target + 1) * batch_size`, so the difference is never negative and its truth value means `batches < target` |
| `BatchFactoryModel.BatchesBelow` | src/icefarm/client/lib/BatchClient.py:242-244 | under that bound the difference is non-zero exactly when the backlog is below `target * batch_size` |
| `FactoryRuns.ReadyMeansRoom` | src/icefarm/client/lib/BatchClient.py:238-244 | when the balanced factory lets a batch through, every device owes less than `target` batches |
| `FactoryRuns.ReadyThroughout` | src/icefarm/client/lib/BatchClient.py:217-244 | in every state of every run: the quick factory is ready, the patient one if and only if nothing is owed, the balanced one if and only if every device owes less than `target` batches |
| `FactoryRuns.PatientOwesOneBatch` | src/icefarm/client/lib/BatchClient.py:220-226 | under the patient factory no device ever owes more than one batch |
| `FactoryRuns.BrokenNeverStrands` | src/icefarm/client/lib/BatchClient.py:119-143 | a broken device awaits only what the watchdog has listed, nothing once the list is worked off; each of its pairs was requested or failed at once, never both, and a pair failed at once is delivered to the consumer as a failure |
| `FactoryRuns.OnlyBrokenFail` | src/icefarm/client/lib/BatchClient.py:131-143 | a consumer is told of a failure only for a device that was given up |
| `FactoryRuns.StepDelivers` | src/icefarm/client/lib/BatchClient.py:120-194 | each step keeps: failed at once means delivered as a failure, and only broken devices deliver failures |
| `FactoryRuns.FailAllDelivers` | src/icefarm/client/lib/BatchClient.py:193-194 | failing a list delivers a failure for each of its awaited pairs and for nothing else |
| `FactoryOrder.ArriveMeans` | src/icefarm/client/lib/BatchClient.py:145-157 | a result that is awaited is the next to be delivered, is awaited no more and stamps its device, and nothing else changes; any other changes nothing |
| `FactoryOrder.ProcessedInOrder` | src/icefarm/client/lib/BatchClient.py:145-174 | over every run results are delivered in the order in which they were processed |
| `FactoryRuns.AwaitedIsClocked` | src/icefarm/client/lib/BatchClient.py:121-122 | the watchdog finds a time of last result for every device that owes something |
| `WatchdogRuns.NoFalseAlarm` | src/icefarm/client/lib/BatchClient.py:120-123 | with a clock that does not go back, a device that delivered an awaited result is given up only after a full timeout of silence |
| `WatchdogRuns.SilentStep` | src/icefarm/client/lib/BatchClient.py:145-157 | as long as no result of a device is processed, what it owes and when it was last heard of stay |
| `WatchdogRuns.RegisteredOwes` | src/icefarm/client/lib/BatchClient.py:176-188 | registering a batch starts the clock only of devices not heard of before |
| `WatchdogRuns.GraceIff` | src/icefarm/client/lib/BatchClient.py:120-123 | over every run: within the timeout after being sent a batch, with no result of it in between, a device can be given up exactly if it was known before and silent, even if idle, for longer than the timeout |
| `WatchdogRuns.IdleBoardGivenUp` | src/icefarm/client/lib/BatchClient.py:120-138 | a run in which a board that answered its first circuit is given up in the moment it is sent its second, for every policy and timeout |
| `FactoryRuns.FreshPairs` | src/icefarm/client/lib/BatchClient.py:24-26 | with distinct ids no two evaluations ever dispatch the same pair |
| `ReservationModel.Database.constructor` | src/icefarm/control/flyway/migrations/V1__Tables.sql:1-25 | empty tables |
| `ReservationModel.Database.DeleteRows` | src/icefarm/control/flyway/migrations/V1.4__Triggers.sql:1-11 | deleting rows announces each deleted row once, with its own device and client |
| `ReservationModel.Database.DeleteDevices` | src/icefarm/control/flyway/migrations/V1__Tables.sql:21-25 | deleting devices cascades to their rows |
| `ReservationModel.Database.DeleteWorkers` | src/icefarm/control/flyway/migrations/V1__Tables.sql:15-19 | deleting workers cascades to their devices and rows |
| `ReservationModel.Database.AddWorker` | src/icefarm/control/flyway/migrations/V1.5__UpsertWorker.sql:1-30 | the old worker goes with its devices and rows, the new one is there with a fresh heartbeat |
| `ReservationModel.Database.ShutdownWorker` | src/icefarm/control/flyway/migrations/V1.1__WorkerProc.sql:35-40 | only the flag of that worker changes; an unknown worker changes nothing |
| `ReservationModel.Database.HeartbeatWorker` | src/icefarm/control/flyway/migrations/V1.1__WorkerProc.sql:64-75 | raises for an unknown worker, else only its heartbeat changes |
| `ReservationModel.Database.HandleWorkerTimeouts` | src/icefarm/control/flyway/migrations/V1.1__WorkerProc.sql:77-97 | exactly the workers silent for longer than `s` seconds go, with devices and rows |
| `ReservationModel.Database.AddDevice` | src/icefarm/control/flyway/migrations/V1.2__DeviceProc.sql:1-17 | raises for an unknown worker or a known serial, else adds the device waiting to be flashed |
| `ReservationModel.Database.UpdateDeviceStatus` | src/icefarm/control/flyway/migrations/V1.2__DeviceProc.sql:19-30 | raises for an unknown device; announces the number available exactly on a change to available |
| `ReservationModel.Database.Book` | src/icefarm/control/flyway/migrations/V1.3__ReservationProc.sql:34-45 | both statements or, on a key conflict, neither |
| `ReservationModel.Limit` | src/icefarm/control/flyway/migrations/V1.3__ReservationProc.sql:27 | some of the rows, as many as asked for or present |
| `ReservationModel.Database.MakeReservations` | src/icefarm/control/flyway/migrations/V1.3__ReservationProc.sql:1-50 | the transaction `MakeAny`; `ReservationMeans.AnyBooksIff` says what that means |
| `ReservationModel.Database.MakeSpecificReservations` | src/icefarm/control/flyway/migrations/V1.3__ReservationProc.sql:52-100 | the transaction `MakeSpecific`; `ReservationMeans.SpecificBooksIff` says what that means |
| `ReservationModel.Database.ExtendReservations` | src/icefarm/control/flyway/migrations/V1.3__ReservationProc.sql:132-146 | exactly the caller's named rows end an hour from now |
| `ReservationModel.Database.ExtendAllReservations` | src/icefarm/control/flyway/migrations/V1.3__ReservationProc.sql:148-158 | exactly the caller's rows end an hour from now |
| `ReservationModel.Database.Release` | src/icefarm/control/flyway/migrations/V1.3__ReservationProc.sql:189-200 | rows go with their announcements, their devices wait to be flashed |
| `ReservationModel.Database.EndReservations` | src/icefarm/control/flyway/migrations/V1.3__ReservationProc.sql:160-201 | exactly the caller's named rows are released |
| `ReservationModel.Database.EndAllReservations` | src/icefarm/control/flyway/migrations/V1.3__ReservationProc.sql:203-240 | exactly the caller's rows are released |
| `ReservationModel.Database.HandleReservationTimeouts` | src/icefarm/control/flyway/migrations/V1.3__ReservationProc.sql:242-279 | exactly the rows past their end are released; `ReservationMeans.ExpiryMeans` says what that means |
| `ReservationModel.Database.ClearReservations` | src/icefarm/control/ControlDatabase.py:99-102 | all rows go with their announcements; device statuses stay |
| `ReservationModel.Database.ClearDevices` | src/icefarm/control/ControlDatabase.py:104-106 | all devices go with their rows |
| `ReservationModel.Database.ClearWorkers` | src/icefarm/control/ControlDatabase.py:108-111 | two transactions: all devices go with their rows, then all workers |
| `ReservationRuns.ExecutesKeepsInv` | src/icefarm/control/flyway/migrations/V1__Tables.sql:15-25 | every procedure keeps the foreign keys and "available means no reservation row", if workers report available only devices without a row |
| `ReservationRuns.NoDoubleBooking` | src/icefarm/control/flyway/migrations/V1.3__ReservationProc.sql:1-100 | so both hold after every run of all procedures |
| `ReservationRuns.EligibleAreFree` | src/icefarm/control/flyway/migrations/V1.3__ReservationProc.sql:18-45 | what a reservation picks is free and available, so its insert never meets a key conflict |
| `ReservationRuns.KeepsInvIff` | src/icefarm/control/flyway/migrations/V1__Tables.sql:15-25 | a call keeps both if and only if it does not report a device available that has a row |
| `ReservationRuns.NoDoubleBookingIff` | src/icefarm/control/flyway/migrations/V1.3__ReservationProc.sql:1-100 | both hold throughout a run if and only if no call of it does |
| `ReservationRuns.UndisciplinedConflict` | src/icefarm/control/flyway/migrations/V1.3__ReservationProc.sql:84-95 | a device reported available while it has a row makes every specific request that names it abort without effect |
| `ReservationRuns.MakeSpecificIff` | src/icefarm/control/flyway/migrations/V1.3__ReservationProc.sql:61-100 | succeeds exactly for pairwise distinct, eligible serials; then precisely those become reserved for the caller, otherwise nothing changes |
| `ReservationRuns.MembersCount` | src/icefarm/control/flyway/migrations/V1.3__ReservationProc.sql:78-82 | comparing the match count with the list length detects exactly the duplicates |
| `ReservationRuns.MakeAnyIff` | src/icefarm/control/flyway/migrations/V1.3__ReservationProc.sql:12-50 | succeeds exactly when at least `amount` devices are eligible; then that many of them become reserved, otherwise nothing changes |
| `ReservationMeans.SpecificBooksIff` | src/icefarm/control/flyway/migrations/V1.3__ReservationProc.sql:61-100 | succeeds if and only if the serials are distinct and each is an available device whose worker is registered, offers the kind and is not shutting down |
| `ReservationMeans.AnyBooksIff` | src/icefarm/control/flyway/migrations/V1.3__ReservationProc.sql:12-50 | succeeds if and only if there are `amount` such devices, and grants only such |
| `ReservationMeans.NoBookingAfterShutdown` | src/icefarm/control/flyway/migrations/V1.3__ReservationProc.sql:18-27 | over every run: from its shutdown until it is added again no call books a device of a worker |
| `ReservationRuns.OthersUntouched` | src/icefarm/control/flyway/migrations/V1.3__ReservationProc.sql:132-240 | no call of a client changes a row, or its device, of anyone else |
| `ReservationRuns.EndMeans` | src/icefarm/control/flyway/migrations/V1.3__ReservationProc.sql:160-201 | exactly the caller's named rows go, one announcement each, and exactly their devices are sent back to be flashed |
| `ReservationMeans.EndAllMeans` | src/icefarm/control/flyway/migrations/V1.3__ReservationProc.sql:203-240 | exactly the caller's rows go, one announcement each with its own client, exactly their devices are sent back to be flashed, and nothing else changes |
| `ReservationMeans.ExpiryMeans` | src/icefarm/control/flyway/migrations/V1.3__ReservationProc.sql:242-279 | the same of exactly the rows that ended before `now` |
| `ReservationMeans.RowGoesIff` | src/icefarm/control/flyway/migrations/V1.3__ReservationProc.sql:132-279 | for every procedure: which rows it takes away, and that no other goes |
| `ReservationMeans.DeviceGoesIff` | src/icefarm/control/flyway/migrations/V1__Tables.sql:15-25 | for every procedure: which devices it takes away, and that no other goes |
| `ReservationMeans.StatusAfter` | src/icefarm/control/flyway/migrations/V1.3__ReservationProc.sql:34-39 | a device that stays changes its status only by a report, by being booked, or, back to being flashed, with a row that its client or the expiry takes away |
| `ReservationMeans.RowStays` | src/icefarm/control/flyway/migrations/V1.3__ReservationProc.sql:132-158 | a row that stays is the same, or ends an hour from now if its client extends it |
| `ReservationMeans.RowComes` | src/icefarm/control/flyway/migrations/V1.3__ReservationProc.sql:41-45 | a row comes only by a successful request, for its client and an hour |
| `ReservationMeans.DeviceComes` | src/icefarm/control/flyway/migrations/V1.2__DeviceProc.sql:1-17 | a device comes only by being added, by a registered worker, waiting to be flashed |
| `ReservationMeans.AddsIff` | src/icefarm/control/flyway/migrations/V1.2__DeviceProc.sql:1-30 | adding, reporting and heartbeats raise exactly for unknown workers, known serials and unknown devices |
| `ReservationMeans.WorkerChanges` | src/icefarm/control/flyway/migrations/V1.1__WorkerProc.sql:35-40 | a worker comes only by being added, goes only by a timeout or with all workers, and only its shutdown or being added changes its flag |
| `ReservationMeans.LastBeat` | src/icefarm/control/flyway/migrations/V1.1__WorkerProc.sql:64-75 | over every run the heartbeat of a worker is the time of its last sign of life |
| `ReservationMeans.TimedOutIff` | src/icefarm/control/flyway/migrations/V1.1__WorkerProc.sql:77-97 | over every run the timeout takes a worker if and only if it gave no sign of life in the last `s` seconds |
| `ReservationMeans.NoneOverdue` | src/icefarm/control/flyway/migrations/V1.3__ReservationProc.sql:242-279 | over every run: after the expiry procedure no lease is overdue |
| `ReservationMeans.LeaseTakenIff` | src/icefarm/control/flyway/migrations/V1.3__ReservationProc.sql:242-279 | the expiry procedure takes a lease if and only if its end has passed, and then its device waits to be flashed |
| `ReservationMeans.OverdueIsGone` | src/icefarm/control/flyway/migrations/V1.3__ReservationProc.sql:242-279 | so a lease that nobody extends is gone after the first expiry past its end |
| `ReservationMeans.EndsAnnounced` | src/icefarm/control/flyway/migrations/V1.4__Triggers.sql:1-11 | for every procedure: the end of each row it takes is announced just once, with its own client, and no other end is |
| `ReservationMeans.AvailableAnnouncedIff` | src/icefarm/control/flyway/migrations/V1.4__Triggers.sql:13-27 | a number of available devices is announced by exactly those calls that make a device available |
| `ReservationRuns.OnlyReportsFree` | src/icefarm/control/flyway/migrations/V1.2__DeviceProc.sql:19-30 | nothing but a worker's report makes a device available |
| `ReservationRuns.AvailableIfReported` | src/icefarm/control/flyway/migrations/V1.2__DeviceProc.sql:19-30 | a device unavailable at one point of a run and available at a later one was reported in between |
| `ReservationRuns.BooksWhenAvailable` | src/icefarm/control/flyway/migrations/V1.3__ReservationProc.sql:18-39 | a reservation takes only available devices, and they are available no more |
| `ReservationRuns.ReportedBetweenBookings` | src/icefarm/control/flyway/migrations/V1.3__ReservationProc.sql:195-200 | between two reservations of a device, however the first one ended, its worker reported it available again |
| `ReservationRuns.DeleteBalances` | src/icefarm/control/flyway/migrations/V1.4__Triggers.sql:1-11 | rows before a deletion are the rows after it plus the announced ones |
| `ReservationRuns.ExecutesBalances` | src/icefarm/control/flyway/migrations/V1.4__Triggers.sql:1-11 | every call, by whichever path it removes rows, keeps the ledger |
| `ReservationRuns.Ledger` | src/icefarm/control/flyway/migrations/V1.4__Triggers.sql:1-11 | over any run every row ever inserted is live or was announced exactly once with its own device and client |
| `ReservationRuns.GrowthIsAnnounced` | src/icefarm/control/flyway/migrations/V1.4__Triggers.sql:13-27 | a call after which more devices are available announced just that number |
| `ReservationRuns.NoLostWakeUp` | src/icefarm/control/flyway/migrations/V1.4__Triggers.sql:13-27 | if fewer than `n` devices were available and later at least `n` are, an announcement of at least `n` was sent in between |
| `AvailabilityModel.AvailabilityWaiter.constructor` | src/icefarm/client/lib/utils.py:50-54 | nothing heard of yet |
| `AvailabilityModel.AvailabilityWaiter.WaitForAmountAvailable` | src/icefarm/client/lib/utils.py:56-72 | returns at once if the first look sees enough; otherwise if and only if at some check the last number heard, possibly before the call, is enough |
| `AvailabilityRuns.CallAnnounces` | src/icefarm/control/flyway/migrations/V1.4__Triggers.sql:13-27 | a call announces at most one number, the one then available, and announces it whenever that number grew |
| `AvailabilityRuns.LastAnnouncedCovers` | src/icefarm/control/flyway/migrations/V1.4__Triggers.sql:13-27 | over any run the last number announced is never below the number available |
| `AvailabilityRuns.WaiterReleased` | src/icefarm/client/lib/utils.py:62-72 | a waiter that saw too few is released once it has heard all announcements up to a point where enough are available |
| `AvailabilityRuns.LaterAnnounced` | src/icefarm/control/flyway/migrations/V1.4__Triggers.sql:13-27 | a number announced after some point of a run is the number available at some later state |
| `AvailabilityRuns.TruthfulIff` | src/icefarm/client/lib/utils.py:62-72 | over every run: a wait whose first look sees too few returns only after enough were available at some time since, whatever is heard of whatever happens, if and only if neither the number last heard nor any number still under way is large enough |
| `AvailabilityRuns.UpToDateTruthfulIff` | src/icefarm/client/lib/utils.py:62-72 | for a client that has heard everything: if and only if `last_available < amount` when it calls |
| `AvailabilityRuns.StaleRelease` | src/icefarm/client/lib/utils.py:62-72 | a run after which a new wait returns although nothing is available: the announcement it trusts is of a board reserved since |
| `ReservationLease.FourNotices` | src/icefarm/control/Heartbeat.py:16-24 | a reservation gets exactly four notices before it ends, whatever the phase of the poll, the first at least fifteen minutes before |
| `ReservationLease.NoticesAreReports` | src/icefarm/control/flyway/migrations/V1.3__ReservationProc.sql:281-290 | they are exactly the polls at which the row is reported, all after the reservation was made |
| `ReservationLease.NewRowsLastAnHour` | src/icefarm/control/flyway/migrations/V1.3__ReservationProc.sql:41-45 | however a lease comes about, it ends an hour after the call that made or extended it |
| `ReservationLease.ExtensionMovesEnd` | src/icefarm/control/flyway/migrations/V1.3__ReservationProc.sql:132-158 | an extension moves the end of the lease to an hour from now |
| `ReservationLease.NoticeReports` | src/icefarm/control/Heartbeat.py:111-122 | every notice of a lease that is still live when it ends is polled in time and reports the board |
| `ReservationLease.FindStart` | src/icefarm/control/flyway/migrations/V1.3__ReservationProc.sql:242-279 | every live lease has a start since which it has been live |
| `ReservationLease.LostMeansAllMissed` | src/icefarm/control/flyway/migrations/V1.3__ReservationProc.sql:242-279 | the expiry procedure removes a lease only after all four of its notices were sent and every one went unanswered until its end |
| `ReservationLease.LeaseKept` | src/icefarm/control/flyway/migrations/V1.3__ReservationProc.sql:242-279 | a client that leaves at most three notices of any lease unanswered never loses the board to the expiry procedure, over runs of any length |
| `ReservationLease.PromptIsResponsive` | src/icefarm/client/lib/utils.py:34-46 | a client that extends within fifteen minutes of every notice is such a client |
| `UploadModel.Queue.constructor` | src/icefarm/utils/utils.py:220-224 | holds the given items and is open |
| `UploadModel.Queue.Put` | src/icefarm/utils/utils.py:226-237 | appends, or is refused without effect after a shutdown |
| `UploadModel.Queue.Pop` | src/icefarm/utils/utils.py:239-248 | the oldest item, or the shutdown signal |
| `UploadModel.Queue.Shutdown` | src/icefarm/utils/utils.py:250-258 | hands out everything and closes |
| `UploadModel.UploadState.constructor` | src/icefarm/worker/device/state/core/UploadState.py:216-220 | takes over bitstreams and results and works on nothing yet |
| `UploadModel.UploadState.Enqueue` | src/icefarm/worker/device/state/core/UploadState.py:122-128 | bitstreams are queued in order, or dropped after a shutdown |
| `UploadModel.UploadState.TakeNext` | src/icefarm/worker/device/state/core/UploadState.py:168-172 | the oldest bitstream becomes the current one, or the loop ends |
| `UploadModel.UploadState.Record` | src/icefarm/worker/device/state/core/UploadState.py:192 | the result goes to the end of its batch id's list |
| `UploadModel.UploadState.Clear` | src/icefarm/worker/device/state/core/UploadState.py:194 | nothing is current any more |
| `UploadModel.UploadState.Flush` | src/icefarm/worker/device/state/core/UploadState.py:145-163 | results are given up exactly if the queue is open, a flush is wanted and the send succeeded |
| `UploadModel.UploadState.Reboot` | src/icefarm/worker/device/state/core/UploadState.py:208-214 | closes the queue and hands over its items followed by the current bitstream |
| `UploadRuns.StepMoves` | src/icefarm/worker/device/state/core/UploadState.py:165-224 | among all steps only accepting, and an outside reboot that catches a current bitstream, add anything to all there is |
| `UploadRuns.StepKeepsOrder` | src/icefarm/worker/device/state/core/UploadState.py:145-196 | each step keeps, per batch id, "sent then held is completion order" |
| `UploadRuns.StepKeepsWork` | src/icefarm/worker/device/state/core/UploadState.py:145-196 | each step keeps "held results mean waiting bitstreams" |
| `UploadRuns.RunKeeps` | src/icefarm/worker/device/state/core/UploadState.py:165-224 | all invariants hold in every state of every run, over any number of reboots |
| `UploadRuns.AtLeastOnce` | src/icefarm/worker/device/state/core/UploadState.py:165-224 | every accepted bitstream is waiting, in hand or completed, with at most one surplus copy per outside reboot |
| `UploadRuns.ExactlyOnceWithoutExternal` | src/icefarm/worker/device/state/core/UploadState.py:165-224 | in particular, without outside reboots nothing is lost and nothing is copied |
| `UploadRuns.StepKeepsFifo` | src/icefarm/worker/device/state/core/UploadState.py:165-196 | each step but a reboot keeps "completed, in hand, queued is the order of acceptance" |
| `UploadRuns.CompletedInOrder` | src/icefarm/worker/device/state/core/UploadState.py:165-196 | as long as nothing reboots, bitstreams complete in the order in which they were accepted |
| `UploadRuns.CopiesAreCaught` | src/icefarm/worker/device/state/core/UploadState.py:208-224 | all there is are the accepted bitstreams and one more copy of each that an outside reboot found current, in every state of every run |
| `UploadRuns.ExactlyOnceIff` | src/icefarm/worker/device/state/core/UploadState.py:208-224 | nothing is lost and nothing is copied if and only if no outside reboot found a current bitstream; the surplus is the number of those that did |
| `UploadReboots.OutsideRebootDuplicates` | src/icefarm/worker/device/state/core/UploadState.py:208-224 | a run from the start in which a reboot from outside during an evaluation hands the bitstream over and still completes it |
| `UploadReboots.RebootAdvances` | src/icefarm/worker/device/state/core/UploadState.py:165-224 | while a reboot is under way every step but a refused bitstream brings it closer to its end or ends it |
| `UploadReboots.SomeoneMoves` | src/icefarm/worker/device/state/core/UploadState.py:165-224 | unless the run thread and an outside reboot wait for each other, one of them can take a step, without another failure or request |
| `UploadReboots.DeadlockIff` | src/icefarm/worker/device/Device.py:88-102 | in every state of every run the two wait for each other if and only if an upload has failed while an outside reboot waited for its thread, or an outside reboot has taken the lock before a thread that was rebooting by itself |
| `UploadReboots.DeadlockLasts` | src/icefarm/worker/device/Device.py:88-102 | then they do so for ever: no next state takes over, whatever happens |
| `UploadReboots.GetsThroughIff` | src/icefarm/worker/device/state/core/UploadState.py:208-224 | a reboot under way can go on to the point where the next state takes over if and only if there was no such clash |
| `UploadReboots.RebootIsShort` | src/icefarm/worker/device/state/core/UploadState.py:165-224 | however the threads take turns, at most seven steps, refused bitstreams aside, pass before the next state takes over |
| `UploadReboots.LateFailureSticks` | src/icefarm/worker/device/Device.py:88-102 | a run in which an upload fails while an outside reboot waits for its thread: the two wait for each other |
| `UploadReboots.OvertakenSticks` | src/icefarm/worker/device/Device.py:88-102 | a run in which an outside reboot takes the lock between the failure of an upload and the switch of its thread: they wait for each other as well |
| `UploadRuns.SelfRebootOrder` | src/icefarm/worker/device/state/core/UploadState.py:208-224 | after a reboot by the run thread the queue is the old queue followed by the failed bitstream, with the held results |
| `UploadRuns.FlushOrder` | src/icefarm/worker/device/state/core/UploadState.py:303-310 | per batch id, the groups sent followed by what is held are the completion order, over the whole run |
| `UploadRuns.FlushSendsAllIff` | src/icefarm/worker/device/state/core/UploadState.py:145-163 | over every run, a turn of the loop leaves nothing completed unsent if and only if nothing was unsent before, or the send succeeds while the queue is open and is empty, exactly `flush_at` long, or the interval has passed |
| `UploadRuns.NeverBlocksHolding` | src/icefarm/worker/device/state/core/UploadState.py:145-163 | while sends succeed and no one else reboots, the loop never waits on an empty queue with results in hand |
| `WireFormat.PrintSamples` | firmware/variance/main.cpp:362-383 | prints the whole line; the 8-byte buffer never cuts a 16-bit value |
| `WireFormat.DecimalLength` | firmware/variance/main.cpp:366-370 | a number below a power of ten has no more digits than that |
| `WireFormat.DecimalDigits` | firmware/variance/main.cpp:368-370 | the printed digits read back as the number |
| `WireFormat.ShownIsEscape` | src/icefarm/worker/device/state/core/UploadState.py:244 | with at most one kind of quote the text of a bytes object is escaped byte by byte |
| `LineParser.ShownLosesNothing` | src/icefarm/worker/device/state/core/UploadState.py:244 | the text made of any bytes gives the bytes back |
| `WireFormat.IndexMeans` | src/icefarm/worker/device/state/core/UploadState.py:249 | finds the first line end, if there is one |
| `WireFormat.Read` | src/icefarm/worker/device/state/core/UploadState.py:238-250 | hands on exactly the complete lines of all that arrived and keeps the rest |
| `WireFormat.LinesAppend` | src/icefarm/worker/device/state/core/UploadState.py:248-250 | text that arrives later never changes complete lines |
| `WireFormat.UnlinesOfLines` | src/icefarm/worker/device/state/core/UploadState.py:248-250 | splitting loses nothing: lines and rest give the text back |
| `WireFormat.ChunksDoNotMatter` | src/icefarm/worker/device/state/core/UploadState.py:242-250 | for text without both kinds of quote the lines depend only on what was sent |
| `WireFormat.ChunksMatterIff` | src/icefarm/worker/device/state/core/UploadState.py:242-250 | and for no other text: with both kinds there are two ways to cut it that are read differently |
| `WireFormat.ParsePrinted` | src/icefarm/worker/device/state/reservable/VarMaxState.py:31-42 | parsing the body of a printed line gives the samples back |
| `LineParser.PrintedIs` | firmware/variance/main.cpp:362-383 | the line is the label, a space, the numbers with commas between them and the line end |
| `LineParser.ParseReads` | src/icefarm/worker/device/state/reservable/VarMaxState.py:31-42 | the parser on any line that names samples: whatever stands before and behind, however the list is spaced and whichever items are blank, exactly the numbers, unless an item has a space inside, then none |
| `LineParser.FieldsOf` | src/icefarm/worker/device/state/reservable/VarMaxState.py:33 | any text of digits, commas and spaces is such a list |
| `WireFormat.SplitJoined` | src/icefarm/worker/device/state/reservable/VarMaxState.py:35 | splitting at commas gives the printed numbers back |
| `WireFormat.IntsOfDecimals` | src/icefarm/worker/device/state/reservable/VarMaxState.py:35 | reading the printed numbers gives the samples back |
| `WireFormat.StreamLines` | firmware/variance/main.cpp:140-400 | the lines of consecutive printouts are their texts, with nothing left over |
| `WireFormat.ChatterUnmatched` | src/icefarm/worker/device/state/reservable/VarMaxState.py:33 | a text without a colon right behind an `s` is no samples line to the parser |
| `WireFormat.MessagesAreChatter` | firmware/variance/main.cpp:148-400 | every status line of the firmware is such a text, whatever numbers it shows, also the -1 of a flash step that failed |
| `WireFormat.WireRoundTrip` | src/icefarm/worker/device/state/core/UploadState.py:238-256 | any status lines and non-empty waveforms in any order, cut into any chunks, come out one line each; exactly the waveforms parse, each as its own samples |
| `FirmwareModel.Board.constructor` | firmware/variance/main.cpp:140-160 | starts outside the transfer state with nothing received |
| `FirmwareModel.Board.Iterate` | firmware/variance/main.cpp:160-395 | one turn of the loop moves the state variables as `Turn` does, of which `FirmwareProgress` says that the board gets on, and flashes exactly in the flash state |
| `FirmwareModel.Board.TransferBitstream` | firmware/variance/main.cpp:236-307 | entry resets the count, a disconnect drops the transfer, a full image goes to flash even when the watchdog has just run out |
| `FirmwareModel.Board.ReadAvailable` | firmware/variance/main.cpp:284-294 | reads what is there but never past the end of the image, right behind what was received |
| `FirmwareModel.Board.CopyIn` | firmware/variance/main.cpp:292 | the bytes land contiguously; the rest of the buffer stays |
| `FirmwareModel.WriteBitstream` | src/icefarm/worker/device/state/core/UploadState.py:130-143 | the writes concatenate to the file, each 1 to 512 bytes |
| `FirmwareRuns.NextFrames` | firmware/pulse_count/main.cpp:162-380 | each turn keeps: the bytes in the buffer are those read since the transfer state was entered |
| `FirmwareRuns.NextWindows` | firmware/pulse_count/main.cpp:162-380 | each turn keeps: flashed images are non-overlapping windows of the bytes read |
| `FirmwareRuns.RunFrames` | firmware/pulse_count/main.cpp:162-380 | both hold over every run, whatever times out or disconnects |
| `FirmwareRuns.FlashOnlyWholeImages` | firmware/variance/main.cpp:236-323 | the receive count never exceeds the image length, and a flash has exactly that many contiguous bytes read since entry |
| `FirmwareRuns.FlashedWindows` | firmware/variance/main.cpp:236-337 | image `k` is a window of the bytes read, the windows in order and disjoint |
| `FirmwareRuns.CalmRun` | firmware/variance/main.cpp:236-337 | without timeouts and disconnects bytes read plus bytes queued are the bytes that arrived, and no byte falls between images |
| `FirmwareRuns.ImagesInOrder` | firmware/variance/main.cpp:236-337 | then image `k` is bytes `k*L` to `(k+1)*L` of the stream, for any arrival chunking |
| `FirmwareRuns.FileAt` | src/icefarm/worker/device/state/core/UploadState.py:139-143 | file `k` of a concatenation of equally long files is at `k*L` |
| `FirmwareRuns.FilesArrive` | src/icefarm/worker/device/state/core/UploadState.py:130-143 | the worker's files are flashed as the same files in the same order, at any time and for any arrival chunking |
| `FirmwareProgress.FilesAreFlashed` | src/icefarm/worker/device/state/core/UploadState.py:130-143 | once all bytes of the files have arrived and the board had seven connected turns for each, all of them are flashed, whole, in order, and nothing else |
| `FirmwareProgress.ArrivedIsFlashed` | firmware/variance/main.cpp:160-395 | once the bytes of `k` images have arrived, seven connected turns for each are enough to flash `k` images |
| `FirmwareProgress.ReadsSoon` | firmware/variance/main.cpp:160-395 | whatever happened before, seven connected turns without a timeout are enough to read some of the bytes that wait |
| `FirmwareProgress.BrokenIsDropped` | firmware/variance/main.cpp:247-283 | a transfer that a disconnect or the watchdog breaks off ends at once, and every image flashed later was read after that |
| `FirmwareProgress.BytesMove` | firmware/variance/main.cpp:284-294 | in every turn bytes only move from the queue to the image; only a disconnect that empties the queue loses any |
| `FirmwareProgress.SamplesAfterFlash` | firmware/variance/main.cpp:313-345 | samples are taken right after a flash, by the firmware that takes samples |
| `SessionModel.Session.constructor` | src/icefarm/utils/EventSender.py:33-34 | no messages, no socket |
| `SessionModel.Session.Append` | src/icefarm/utils/EventSender.py:57-59 | the message goes to the end of the queue |
| `SessionModel.Session.PointAt` | src/icefarm/utils/EventSender.py:62-72 | only the socket changes |
| `SessionModel.Session.TakeQueue` | src/icefarm/utils/EventSender.py:77-87 | with messages and a socket the whole queue is taken; otherwise nothing happens |
| `SessionModel.Session.Flush` | src/icefarm/utils/EventSender.py:77-98 | alone: what the library accepted went out in order, what failed waits again in order |
| `SessionModel.WhereSplits` | src/icefarm/utils/EventSender.py:89-98 | these two together are the queue taken, nothing lost or copied |
| `SessionModel.WhereInOrder` | src/icefarm/utils/EventSender.py:89-98 | what went out and what waits again are each in the order of the queue |
| `SessionRuns.StepKeepsDelivered` | src/icefarm/utils/EventSender.py:57-98 | each step of any thread keeps "accepted is emitted, queued or in flight" |
| `SessionRuns.DeliveredOnce` | src/icefarm/utils/EventSender.py:57-98 | over every interleaving accepted messages are the disjoint union of emitted, in flight and queued, and go only to sockets of the session |
| `SessionRuns.StuckIffFailed` | src/icefarm/utils/EventSender.py:77-98 | a connected session with no flush about to start holds exactly the messages whose emit failed since the queue was last taken |
| `SessionOrder.StepKeepsOrderIff` | src/icefarm/utils/EventSender.py:57-98 | a step keeps what went out and what is to go, put together, in send order if and only if it is harmless: it emits from the oldest unfinished flush, or fails the very last message |
| `SessionOrder.HarmlessInOrder` | src/icefarm/utils/EventSender.py:57-98 | as long as all emits are such, events go out in send order |
| `SessionOrder.InOrderThroughout` | src/icefarm/utils/EventSender.py:57-98 | a run that has sent in order at some point has done so all along |
| `SessionOrder.OrderIffOldest` | src/icefarm/utils/EventSender.py:57-98 | without failing emits, and for distinct events, what went out is the beginning of what was accepted if and only if each event was emitted by the oldest flush still holding any |
| `SessionOrder.OneHarmIsEnough` | src/icefarm/utils/EventSender.py:89-98 | one harmful emit among harmless ones: once everything is out, it did not go out in order |
| `SessionOrder.HarmfulFailureReorders` | src/icefarm/utils/EventSender.py:89-98 | after a harmful failure the run can go on without another one to a point where everything is out, and out of order |
| `SessionOrder.SecondFailureRestores` | src/icefarm/utils/EventSender.py:89-98 | a run in order although two of its emits fail harmfully |
| `SessionOrder.InOrderIff` | src/icefarm/utils/EventSender.py:57-98 | whatever has failed so far: all continuations without further harm send in order if and only if what went out, followed by what is still to go, is in send order now |
| `SessionOrder.CalmRunInOrder` | src/icefarm/utils/EventSender.py:57-98 | with flushes that do not overlap and no failing emit, events go out in send order |
| `SessionOrder.OverlapReorders` | src/icefarm/utils/EventSender.py:77-98 | two overlapping flushes can emit a later message first |
| `SessionOrder.FailureReorders` | src/icefarm/utils/EventSender.py:93-98 | without any overlap a failing emit can do the same |

## Left out

- Sockets, HTTP, event packing, logging, configuration and the file system: a bitstream on disk is an abstract value, so that a run loop deletes a file which an outside reboot queues again is not visible here.
- Progress: `getResults` waits for a result without being told that the bundle became empty; only what holds when it returns is stated. A reboot can get through; that the threads are scheduled and the board answers or fails is not stated. `handleExit` outside a reboot is not modelled.
- Batch factories: evaluation ids are distinct, the batch size and the target are at least 1. The quotient in `_readyForBatch` is an exact integer division, as the float one is below 2^53.
- Clocks: one reading per atomic step.
- DrainsIff: the closed condition is for pairwise disjoint serial sets, the kind the drivers build; for overlapping sets `DrainsIffNoGap` gives the exact condition in terms of the states passed.
- MaximumWhenComparable: one direction only. For three sets `ThreeKeysIff` is exact; finding a largest batch for arbitrarily many sets is set packing, and no condition that is exact for more than three is given.
- MappedQueues: `values`, `__bool__` and `__contains__`; `json_to_args` and the other utilities beside it.
- Database: host, port and version columns, `remove_worker` (it names a column that does not exist), `has_reservations` (it ignores its argument), and anomalies of concurrent transactions: transactions are serial here.
- Announcements: the database may merge equal announcements of one transaction; those of one transaction are distinct here.
- WaiterReleased: that announcements reach the client, in order, is assumed; a client whose session begins after an announcement does not hear it.
- ReservationLease.Polls: polls are ideal, every 300 seconds, and a notice reaches its client; the parameter of `get_reservations_ending_soon` is called `mins` but counts seconds, as in the program.
- UploadRuns.Step: an outside reboot's two looks at the current bitstream are one step, as are the two looks at the queue length in `_flush`. A second outside reboot waits for the device's lock and is not a step. The flash between two upload states succeeds.
- WireFormat.Read: the reader's flags for "ready", watchdog timeouts and the last result, and that a result of 0.0 is taken for none, are not modelled; neither are `calculate_variance` and the pulse parser.
- Firmware: LEDs, timing, the size of the USB queue, the flash driver and the sample and pulse read-outs; received plus available bytes stay below 2^32, and the numbers of a status line are short enough for its buffer.
- SessionRuns.Step: the connection timeout and `endSession` are not modelled; an emit that raises has not delivered its message.
