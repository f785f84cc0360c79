# Water meter firmware: verified models

Dafny models of the parts of the meter firmware that must not go wrong, with proofs of what they promise. Each part is
stated twice: as functions on values, about which the lemmas over whole runs speak, and, where the C code updates
structures in place, as a class whose methods are proved to do what those functions say. `dafny verify dfyconfig.toml`
checks everything.

| part | files |
|---|---|
| Bytes, CRC-32, record codec, A/B selection | `Bits`, `Iteration`, `LittleEndian`, `Crc32`, `StorageRecord`, `AbSlot` |
| Commit and restore over the media | `StoragePort`, `StorageService`, `StorageServiceObject`, `StorageSafety`, `StorageProgress`, `StorageLiveness` |
| F-RAM driver and shared I2C bus | `FramDriver`, `FramObject`, `FramSafety`, `I2cBusManager`, `I2cBusObject`, `I2cBusSafety`, `I2cBusService`, `FramOnBus`, `FramOnBusSafety` |
| Event queue, action heap, periodic jobs | `EventQueue`, `EventQueueBounds`, `EventReservation`, `EventSignals`, `EventQueueObject`, `ActionQueue`, `ActionQueueObject`, `Scheduler`, `SchedulerDispatch`, `SchedulerObject`, `Sequences` |
| Volume, publication, leak detection | `VolumeAccumulator`, `VolumeObject`, `RepoTransaction`, `MeasurementManager`, `MeasurementGaps`, `RepoObject`, `LeakTracker`, `LeakDetection`, `LeakSustained`, `LeakObject` |
| MAX35103 driver | `Max35103Profile`, `Max35103Object`, `Max35103Bus`, `Max35103BusObject` |
| Checked arithmetic and interpolation | `Interpolation` |

## The storage stack

`StorageSafety.World` is the service, 512 bytes of media and the operation in flight. Its events are everything that can
happen: a checkpoint is submitted, the service gets a turn (with any clock and any answer of the port), the operation in
flight ends (with any result, and for a write with any subset of its bytes on the media), a stray completion arrives,
results are taken, a restore starts, or the power fails in the middle of whatever is going on and the service restarts
from nothing. The log of submitted records, the indices into it and the last acknowledged one exist for the statements
only. What an operation may do to the media is `StoragePort.Effect`.

`FramOnBus.Stack` is what stands behind that contract: the I2C bus manager with its queue and its other clients, the F-RAM
driver as one of its clients, and the device. The driver's completion callback runs inside the calls of the bus and submits
its next transfer there. `FramOnBusSafety.EachOperationCompletesOnce` is the contract over its runs: one completion for each
accepted operation, true to `Effect`, and until then one transfer on the bus.

## Assumptions

- The port never completes an operation inside the call that submits it: the driver notes the transaction identifier only
  afterwards (2.firmware/src/drivers/storage/fram_driver.c:168-178).
- A byte is written whole or not at all, and reads are honest.
- Volume candidates come from the encoder, with a sequence in (0, 2^31) ahead of every valid record on the media and of the
  commit under way. The service checks neither (2.firmware/src/services/storage/storage_service.c:297-318).
- Counters do not wrap: bus identifiers, admission numbers and generations, insertion and request numbers, state versions.
  Where the wrap is the point it is modelled: record sequences, operation identifiers, SPI tokens, deadlines, time
  differences, `dx` in the interpolation.
- Time handed to the leak service does not run backwards and has started; the job scheduler's clock is not within a period of
  its end.
- The MAX35103 changes its configuration registers only by the host's writes and by a reset, and the host does not
  initialise its driver again while a transfer holds the SPI lock (which would lock twice).
- On the F-RAM's bus, other clients submit in their own name, and the device changes by the driver's transfers only. Whoever
  hears of an operation's completion starts the next one after the callback, not inside it.
- No caller passes a null pointer.

## What turned out otherwise

These claims look right and are false of the code. Each has its exact condition, for all inputs:

- That a cancelled action leaves the heap a heap: exactly when `ActionQueue.CancelKeepsHeapIff` says; otherwise a due action
  can stay behind (`ActionQueue.CancelCanHideADueAction`).
- That the best waiting transfer gets the bus when one ends: exactly when the callback of the ended one starts nothing, the
  best one fits and the port takes it (`I2cBusService.BestGetsBusIff`); what happens in every other case is in
  `I2cBusService.EndServes` and `CancelServes`.
- That every event is delivered in bounded time: an event of priority CONFIG or better always, a worse one exactly when
  `EventQueueBounds.BoundedIff`, `BehindBoundedIff` and `HeadBoundedIff` say; what they leave open is under Left out.
- That critical events always have their reserved places (2.firmware/src/infrastructure/queues/app_event_queue.c:84-86): as
  long as no measurement event takes one and no waiting critical level event is replaced by one that is not, and exactly
  then (`EventReservation.ReservedThroughoutIff`, `CriticalGetsIn`; the inputs are `MeasurementTakesReserved` and
  `CoalescingTakesReserved`).
- That a job of policy SIGNAL_ONCE emits one late event and advances (2.firmware/src/infrastructure/time/scheduler.h:16):
  exactly if it is not pending and there is room (`SchedulerDispatch.LateJobFiresIff`); otherwise it keeps its old deadline
  until it is acknowledged and then fires for it (`KeptUntilAcknowledged`, `FiresOnceAcknowledged`).
- That an active leak tracker has seen sustained entry: one with a counted activation has (`LeakTracker.ActivationIsGenuine`),
  and one gets there without exactly when a sample with the clear and without the entry condition ends its pending phase
  (`LeakTracker.ActiveIff`). Sustained flow is then never confirmed; otherwise it always is
  (`LeakSustained.SustainedFlowConfirmsIff`).
- That accumulation resumes after a gap: in the accumulator it does (`VolumeAccumulator.AccumulationResumes`); through the
  measurement manager exactly when a sample within the gap of the old anchor still comes (`MeasurementGaps.VolumeMovesIff`),
  and never if sample times go forward (`OneGapIsForever`).
- That `round_i64` rounds to nearest: exactly when `Interpolation.RoundIsNearestIff` says; an odd number divided by one is
  off by one (`Interpolation.RoundByOne`).

Where a comment and the code differ the model follows the code; the measurement reservation of the queue's configuration is
used nowhere in it.

## Model

The theorems come first. The methods of the classes, whose names contain `Object.`, follow: each leaves its object as the
function about which the theorems speak says. For loops over arrays (I2C bus, event queue, action heap, scheduler, CRC,
codec) that takes invariants; for straight-line code it ties the object to the theorems and says little more.

| member | source | states |
|---|---|---|
| StorageSafety.AcknowledgedSurvives | 2.firmware/src/services/storage/storage_service.c:376-538 | Over every run, from a fresh service on arbitrary media, of checkpoints, refused, failed and torn operations, stray completions, restores and power losses: once record k has been acknowledged, every later restore that is reported is an I/O error or yields exactly the volume values and sequence of record k or of one submitted after it; never empty, corrupt, conflicting or mixed |
| StorageSafety.AcknowledgedIsOnMedia | 2.firmware/src/services/storage/storage_service.c:297-318 | In the same runs, at every moment after the acknowledgement and not only when somebody restores: the A/B selection over the media picks a slot that is byte for byte the committed encoding of record k or a later one |
| StorageSafety.RunHolds | 2.firmware/src/services/storage/storage_service.c:376-538 | The invariant (what each of the states knows about the media, the flight and the log) holds after any run of enabled events |
| StorageSafety.StepHolds | 2.firmware/src/services/storage/storage_service.c:376-538 | Each single event keeps that invariant: submission, turn, completion with a partial write, stray completion, taking results, restore, power loss |
| StorageSafety.RunIsLater | 2.firmware/src/services/storage/storage_service.c:241-276 | In every run the log of submitted records only grows, by encodable records, and the acknowledged index never goes back |
| StorageSafety.SlotsKeepDurable | 2.firmware/src/services/storage/storage_service.c:421-502 | Whatever a torn write leaves in an unselected target slot (old bytes, no record, or the whole new record), the promise about the acknowledged record survives |
| StorageSafety.TornWriteKeeps | 2.firmware/src/services/storage/storage_service.c:93-119 | A write in flight that persists any subset of its bytes keeps every promise the invariant makes about the media |
| StorageSafety.PowerLossStep | 2.firmware/src/services/storage/storage_service.c:220-239 | Losing the RAM in any state, in the middle of any write, and restarting the service re-establishes the invariant |
| StorageSafety.TargetIsExpendableNow | 2.firmware/src/services/storage/storage_service.c:297-318 | The slot chosen for a commit is not the one that a restore would select at that moment |
| StorageSafety.RecordInPlace | 2.firmware/src/services/storage/storage_service.c:494-518 | A record newer than every valid slot becomes the selected one the moment its commit byte is in place |
| StorageSafety.RestoredIsDurable | 2.firmware/src/services/storage/storage_service.c:342-374 | A restore that is ready, read over two separate operations, reports an I/O error or a durable record |
| StorageProgress.ResultsAreKept | 2.firmware/src/services/storage/storage_service.c:540-548 | Over every run without a power loss: a completion and a restored volume that are ready stay as they are until they are taken |
| StorageProgress.AcknowledgedIsReported | 2.firmware/src/services/storage/storage_service.c:121-135 | A turn acknowledges a volume record exactly when it makes a completion with status OK ready, and that completion carries the sequence of the logged record |
| StorageProgress.CommitEnds | 2.firmware/src/services/storage/storage_service.c:376-538 | However operations turn out, a commit makes at most 3887 turns and completions of progress, bounded by a measure on state, body bytes left and I/O phase |
| StorageProgress.NeverStuck | 2.firmware/src/services/storage/storage_service.c:382-393 | In every reachable commit state either an operation is in flight, or any turn makes progress |
| StorageProgress.MoveDescends | 2.firmware/src/services/storage/storage_service.c:153-172 | Each consumed completion, submission, internal step or failure strictly lowers the measure |
| StorageProgress.OperationsUsed | 2.firmware/src/services/storage/storage_service.c:376-538 | A commit that is acknowledged submitted exactly the operations that were left when it was first looked at |
| StorageProgress.OperationsOfCommit | 2.firmware/src/services/storage/storage_service.c:376-538 | From its first scan that is 6 operations and two for each 32-byte chunk of the body; 10 for a volume record |
| StorageLiveness.FaultFreeCommitSucceedsIff | 2.firmware/src/services/storage/storage_service.c:297-318 | A volume commit during which operations are accepted and complete ends acknowledged if and only if the media offered a target when it began (no sequence conflict, no slot protected for other firmware), and otherwise ends failed; when it completes, its record is the acknowledged one |
| StorageLiveness.FaultFreeRunExists | 2.firmware/src/services/storage/storage_service.c:376-538 | From every reachable commit, of any record type, there is a fault-free run to its end, so the previous line and the run theorems are about runs that exist |
| StorageLiveness.RecordCanBeAcknowledged | 2.firmware/src/services/storage/storage_service.c:241-276 | On any media that offer a target, every encodable record ahead of them can be committed and acknowledged by a service that has just started |
| StorageLiveness.AcknowledgedCanBeRestored | 2.firmware/src/services/storage/storage_service.c:550-579 | In every reachable state at rest with a record acknowledged, a restore can be started and ends OK with that record or a later one |
| StorageLiveness.SmoothStep | 2.firmware/src/services/storage/storage_service.c:376-538 | Every fault-free step keeps such a commit on course for that outcome: what was written is on the media, what is read back is what was written, and it fails only for want of a target |
| Crc32.TableEntry | 2.firmware/src/protocols/storage/storage_record.c:5-18 | A table entry is the register after eight clocks of the index byte |
| Crc32.BuildTable | 2.firmware/src/protocols/storage/storage_record.c:5-18 | The table tabulates that function for all 256 bytes |
| Crc32.Crc32Reflected | 2.firmware/src/protocols/storage/storage_record.c:20-33 | The table loop returns the bit-serial reflected CRC-32 of section 8 of RFC 1952, for every message |
| Crc32.ClockByteInjective | 2.firmware/src/protocols/storage/storage_record.c:5-33 | For a fixed byte the register step never merges two states |
| Crc32.BurstDetected | 2.firmware/src/protocols/storage/storage_record.c:20-33 | Two messages that differ only inside a window of up to four bytes, wherever it is, have different checksums |
| StorageRecord.ComputeCrc | 2.firmware/src/protocols/storage/storage_record.c:59-83 | The checksum covers exactly header bytes 0..11 and the declared payload, and is 0 for sizes and lengths out of bounds |
| StorageRecord.WriteLe | 2.firmware/src/protocols/storage/storage_record.c:36-56 | Exactly n bytes are written, and they are the little-endian digits of the value |
| LittleEndian.Read64 | 2.firmware/src/protocols/storage/storage_record.h:140-144 | The loop from the most significant byte down yields the value of the eight bytes |
| LittleEndian.ValueOfEncoded | 2.firmware/src/protocols/storage/storage_record.h:133-144 | Writing an n-byte integer and reading it back gives the integer |
| StorageRecord.EncodeVolume | 2.firmware/src/protocols/storage/storage_record.c:85-129 | The buffer becomes the 64-byte record with an invalid commit byte, or stays untouched when a remainder is out of range |
| StorageRecord.ClassifySlot | 2.firmware/src/protocols/storage/storage_record.c:179-253 | The gates are applied in order; the first that fails gives the classification |
| StorageRecord.DecodeVolume | 2.firmware/src/protocols/storage/storage_record.c:131-177 | Seven values are read from their offsets if type, schema, length and remainders fit, and none otherwise |
| StorageRecord.RoundTrip | 2.firmware/src/protocols/storage/storage_record.c:85-253 | Encoding, setting the commit byte, classifying and decoding gives a compatible slot, all seven values, and the sequence at offset 8 |
| StorageRecord.ValidIffRecord | 2.firmware/src/protocols/storage/storage_record.c:179-253 | The slots classified as compatible volume records are exactly the committed encodings: decoding loses nothing and invents nothing |
| StorageRecord.SingleByteDetected | 2.firmware/src/protocols/storage/storage_record.c:179-253 | Changing any one byte of a compatible slot of any record type makes it no longer compatible |
| StorageRecord.PayloadBurstDetected | 2.firmware/src/protocols/storage/storage_record.c:59-83 | The same for any damage within four neighbouring payload bytes |
| StorageRecord.HeaderBurstDetected | 2.firmware/src/protocols/storage/storage_record.c:59-83 | The same for any damage within four neighbouring header bytes before the checksum |
| StorageRecord.UncommittedIsInvalid | 2.firmware/src/protocols/storage/storage_record.c:192-205 | Without the valid commit byte a slot is empty or not committed, and never a record |
| AbSlot.WrappedCountersCompare | 2.firmware/src/protocols/storage/ab_slot.c:12-21 | Counters less than 2^31 apart keep their order when only their low 32 bits are compared, as in section 3.2 of RFC 1982 |
| AbSlot.NewerDecides | 2.firmware/src/protocols/storage/ab_slot.c:12-21 | Lying in (0, 2^31) ahead is what the comparison decides, from either side, and it cannot hold both ways |
| AbSlot.CommittedIsSelectedIff | 2.firmware/src/protocols/storage/ab_slot.c:42-95 | A committed record beside another slot is selected if and only if the other is no valid record, an older one, or (from slot A) an identical one |
| AbSlot.TargetIsExpendable | 2.firmware/src/protocols/storage/ab_slot.c:98-110 | Whatever becomes of the chosen target slot, as long as it is no valid record the selection and its status stay what they were |
| FramSafety.TransferOfChunk | 2.firmware/src/drivers/storage/fram_driver.c:33-52 | Every data transfer names the logical address by its slave and word bytes, stays within one 256-byte block, fits the size limit, makes progress, and carries exactly the bytes asked for |
| FramSafety.AddressesAreAccepted | 2.firmware/src/drivers/storage/fram_driver.c:234-259 | Both slave addresses of the device pass the address check of the bus under the registered mask |
| FramSafety.TakesOwnReport | 2.firmware/src/drivers/storage/fram_driver.c:295-307 | Of all transfers on the bus the driver takes the report of the one it waits for, and of no other |
| FramSafety.ChainMeetsContract | 2.firmware/src/drivers/storage/fram_driver.c:295-340 | From any point of an operation on, however its transfers turn out: OK if and only if everything was transferred, a read then holds the device bytes, a write then wrote its range exactly, and any other end left each byte of the range old or new and all others untouched |
| FramSafety.OperationMeetsContract | 2.firmware/src/drivers/storage/fram_driver.c:182-226 | The same from the call that was accepted to its terminal completion, which carries its token, within as many transfers as bytes |
| FramSafety.OperationCanComplete | 2.firmware/src/drivers/storage/fram_driver.c:295-340 | From any point of an operation there is a continuation of its transfers that ends it with OK: the contract is not met by failing |
| FramSafety.OneCompletionEach | 2.firmware/src/drivers/storage/fram_driver.c:84-111 | The driver alone, over every run from the start of operations, probes, reports and generation changes, however the bus answers: completions come in the order of the accepted operations, one for each, and only the last may be outstanding |
| FramOnBusSafety.EachOperationCompletesOnce | 2.firmware/src/drivers/storage/fram_driver.c:128-340 | Driver, bus and device as one machine, whose completion callback submits the next transfer inside the bus; over every run of operations, probes, completions of any tuple, deadlines, recoveries, cancellations of any client, generation changes and transfers of other clients: the completions are those of the accepted operations, in order, exactly one each, with the effect on the device that the storage contract demands; except for the last operation, which if it is not over has exactly one transfer on the bus, the one the driver waits for, under its identifier; an idle driver has none |
| FramOnBusSafety.StackStepKeeps | 2.firmware/src/drivers/storage/fram_driver.c:295-340 | Each event of that machine keeps its invariant: the driver waits if and only if one transfer on the bus, active or waiting, is its own, and that one carries the piece it waits for under the identifier it knows |
| FramOnBusSafety.ReactKeeps | 2.firmware/src/drivers/storage/fram_driver.c:295-340 | So does the callback itself, in the middle of a call of the bus, whether the next transfer is started, queued or refused |
| FramOnBusSafety.StackRunKeeps | 2.firmware/src/drivers/storage/fram_driver.c:128-353 | And every run |
| I2cBusSafety.ExactlyOnePlace | 2.firmware/src/infrastructure/bus/i2c_bus_manager.c:156-340 | In every run from a fresh bus: an identifier that was handed out has been reported exactly once, or is active, or waits, and only one of these; any other identifier is nowhere |
| I2cBusSafety.RunKeeps | 2.firmware/src/infrastructure/bus/i2c_bus_manager.c:156-340 | Every run keeps the invariant: transfers wait only while one is active, in admission order, within capacity, all of registered clients |
| I2cBusSafety.AbortedIsStale | 2.firmware/src/infrastructure/bus/i2c_bus_manager.c:271-340 | The completion of a transfer that timed out, was cancelled or was swept away by a recovery is refused for ever after, whatever has been started since |
| I2cBusSafety.ReportedIsStale | 2.firmware/src/infrastructure/bus/i2c_bus_manager.c:216-242 | No tuple with the identifier of a transfer already reported is ever taken |
| I2cBusSafety.InOrderIsSorted | 2.firmware/src/infrastructure/bus/i2c_bus_manager.c:75-86 | Repeatedly taking the best waiting transfer lists all of them by priority, and by admission within a priority |
| I2cBusService.EndServes | 2.firmware/src/infrastructure/bus/i2c_bus_manager.c:216-340 | When a transfer ends by a completion, at its deadline or by a recovery, for any queue, any lists of requests that the callbacks submit, any refusals and any answers of the port: the next active transfer is the first that fits and that the port takes of, in turn, the requests of the first callback, the best waiting transfer, the requests of its callback should it fail, the second best, and so on; the waiting ones tried before it are reported failed in order, the others still wait, and the rest of the winning list queues up behind them while there is room |
| I2cBusService.CancelServes | 2.firmware/src/infrastructure/bus/i2c_bus_manager.c:290-319 | Cancelling a client: its waiting transfers, also those its callbacks add, are reported cancelled, each once; if it owns the active one, that ends too and the same contest decides who is next; without an active transfer nothing happens |
| I2cBusService.BestGetsBusIff | 2.firmware/src/infrastructure/bus/i2c_bus_manager.c:96-107 | The best waiting transfer is next if and only if the callback of the ended one starts nothing, its own client is still registered under the right conditions, and the port takes it; and if the callback starts something, that is active, everything that waited still waits, and the admitted rest of the list is behind it |
| I2cBusService.EndedServes | 2.firmware/src/infrastructure/bus/i2c_bus_manager.c:96-107 | The contest decides for any transfer that has just left the bus |
| I2cBusService.EndIsReported | 2.firmware/src/infrastructure/bus/i2c_bus_manager.c:216-319 | A matching completion, a tick at the deadline, a recovery and the cancellation of its client each report the transfer they end to its client |
| I2cBusService.SweepCountsReports | 2.firmware/src/infrastructure/bus/i2c_bus_manager.c:290-308 | The number that cancelling counts up is the number of waiting transfers reported cancelled |
| EventQueue.FifoWithinPriority | 2.firmware/src/infrastructure/queues/app_event_queue.c:69-234 | In every run, for every priority: the accepted events that are never coalesced are, in their order, those delivered followed by those still waiting; none is lost, doubled or overtaken |
| EventQueue.DeliveredInTime | 2.firmware/src/infrastructure/queues/app_event_queue.c:157-205 | An event that is not coalesced, of priority CONFIG or better, with k older ones ahead, is delivered within 5 * (k + 1) dequeues whatever else is posted, fewer by the urgent streak so far |
| EventQueueBounds.BoundedIff | 2.firmware/src/infrastructure/queues/app_event_queue.c:157-205 | While too few urgent events wait to use up the fairness counter, a waiting event that is never coalesced has a bound on the dequeues it waits for, whatever is posted between them, if and only if its priority is CONFIG or better or the queue is stuck (full, with nothing in it to replace and nothing ahead of the event) |
| EventQueueBounds.BehindBoundedIff | 2.firmware/src/infrastructure/queues/app_event_queue.c:157-205 | In any state of the counter, for an event with k older ones, none of them a critical event that is never coalesced, with fewer than four urgent ones behind that have to wait for one ahead, and room for one more event if an urgent one is ahead: it has a bound if and only if its priority is CONFIG or better, the queue is stuck, or the urgent streak so far and the urgent events behind it make up 4 * (k + 1); otherwise posted critical events eat the dequeues between the forced ones |
| EventQueueBounds.PushedIsBound | 2.firmware/src/infrastructure/queues/app_event_queue.c:157-205 | Whatever waits ahead: if the urgent streak so far and the urgent events behind it make up 4 * (k + 1), any event that is never coalesced is delivered within 5 * (k + 1) dequeues, fewer by the streak |
| EventQueueBounds.HeadBoundedIff | 2.firmware/src/infrastructure/queues/app_event_queue.c:157-205 | The oldest event, in every state: it has a bound if and only if its priority is CONFIG or better, the urgent streak so far and the urgent events waiting make up four, or the queue is stuck |
| EventQueueBounds.DeliveredUnlessConfig | 2.firmware/src/infrastructure/queues/app_event_queue.c:157-205 | An event of any priority, BACKGROUND too, is delivered within 5 * (k + 1) dequeues, fewer by the urgent streak so far, as long as no dequeue takes a CONFIG event |
| EventReservation.PostKeepsReservedIff | 2.firmware/src/infrastructure/queues/app_event_queue.c:69-114 | From a queue whose events that are not critical leave the reserved places free, a post keeps them free if and only if it is neither a measurement event appended at the bound nor a level event that replaces a critical one at the bound by one that is not |
| EventReservation.ReservedThroughoutIff | 2.firmware/src/infrastructure/queues/app_event_queue.c:69-234 | Over every run from such a queue the reserved places stay free throughout if and only if no call is one of those two |
| EventReservation.CriticalGetsIn | 2.firmware/src/infrastructure/queues/app_event_queue.c:84-105 | After every run without those two calls, a critical event that replaces nothing is refused only while at least as many critical events wait as places are reserved |
| EventReservation.RefusedIff | 2.firmware/src/infrastructure/queues/app_event_queue.c:97-105 | A critical event that replaces nothing is refused exactly in a full queue, and then at least as many critical ones wait as places are reserved if and only if the reservation held |
| EventReservation.MeasurementTakesReserved | 2.firmware/src/infrastructure/queues/app_event_queue.c:87-105 | The first way to lose it: two measurement events in a queue of two with one reserved place |
| EventReservation.CoalescingTakesReserved | 2.firmware/src/infrastructure/queues/app_event_queue.c:75-82 | The second: two waiting critical level events replaced by BACKGROUND ones |
| EventSignals.SignalsAreDelivered | 2.firmware/src/infrastructure/queues/app_event_queue.c:21-40 | In every run, for every identity and source: the level signals that were accepted, each with the content posted last for it, are those delivered, in that order and each once, followed by at most one that still waits |
| EventSignals.CoalescedIff | 2.firmware/src/infrastructure/queues/app_event_queue.c:75-82 | A level event is coalesced if and only if one of its identity and source waits |
| EventQueueBounds.LevelsStayDistinct | 2.firmware/src/infrastructure/queues/app_event_queue.c:75-82 | One step of that: at most one waiting level event of an identity and source |
| EventQueue.TakesFirst | 2.firmware/src/infrastructure/queues/app_event_queue.c:157-234 | What a dequeue takes is the oldest of its priority |
| Max35103Profile.ShadowIsTrue | 3.stm32/Drivers/MAX35103/max35103.c:362-380 | Over any run of configurations, direct and verified writes, resets and failing or silently ignored frames: whenever the profile counts as synchronized, all eleven configuration registers hold the active profile, and it is valid |
| Max35103Profile.ConfigureIsExact | 3.stm32/Drivers/MAX35103/max35103.c:1594-1667 | Success means that the valid candidate is in the device and in the shadow; failure after the guards leaves nothing claimed; a refusal changes nothing |
| Max35103Profile.FaultFreeConfigures | 3.stm32/Drivers/MAX35103/max35103.c:1594-1667 | If its 22 frames go through, configuring succeeds if and only if the profile is valid, the device ready and the state right |
| Max35103Profile.UpdateHolds | 3.stm32/Drivers/MAX35103/max35103.c:293-338 | A verified write of one register carries a held profile to the held candidate |
| Max35103Profile.ValidateProfile | 3.stm32/Drivers/MAX35103/max35103.c:1526-1592 | Accepted if and only if every field is in range and the waves that trigger T2 and the hits come one after the other |
| Max35103Bus.OwnershipHolds | 3.stm32/Drivers/MAX35103/max35103.c:96-131 | In every run from the start: between public calls the bus is held exactly while an asynchronous transfer is active, that transfer is a pending request with a nonzero token, and the lock and unlock hooks strictly alternate |
| Max35103Bus.LateCompletionIsIgnored | 3.stm32/Drivers/MAX35103/max35103.c:2079-2093 | A completion for a request that was cancelled or replaced changes nothing at all, unless a positive multiple of 2^32 - 1 requests was staged in between |
| Max35103Bus.TokensRepeat | 3.stm32/Drivers/MAX35103/max35103.c:726-773 | Two requests carry the same token if and only if a multiple of 2^32 - 1 requests lies between them |
| VolumeAccumulator.VolumeIsConserved | 2.firmware/src/services/volume/volume_accumulator.c:57-213 | After any run of samples, forward volume * 10^6 + remainder has grown by exactly the sum of anchor rate times interval over the accepted samples, and so has reverse; remainders stay below 10^6 |
| VolumeAccumulator.ConsumeConserves | 2.firmware/src/services/volume/volume_accumulator.c:57-213 | The same for one sample; a sample that would overflow changes nothing at all |
| VolumeAccumulator.OverflowIff | 2.firmware/src/services/volume/volume_accumulator.c:163-191 | A sample in order overflows if and only if the product, its sum with the remainder, or the new volume does not fit in 64 bits |
| VolumeAccumulator.TakenIff | 2.firmware/src/services/volume/volume_accumulator.c:57-213 | A sample is taken if and only if it passes the gates of its metadata and there is no anchor, or it lies at the anchor or within the gap after it with an interval that fits |
| VolumeAccumulator.AccumulationResumes | 2.firmware/src/services/volume/volume_accumulator.c:145-161 | The accumulator alone goes on after a gap: the late sample adds nothing and becomes the anchor, and the next one within the gap of it integrates the late rate over exactly the time between the two |
| VolumeAccumulator.SplittingIsExact | 2.firmware/src/services/volume/volume_accumulator.c:57-213 | A constant flow sampled in any two ways over the same time gives the same volumes and remainders |
| VolumeAccumulator.CheckpointSurvives | 2.firmware/src/services/volume/volume_accumulator.c:220-272 | A checkpoint that is encoded, committed, decoded and restored into any accumulator keeps the totals to the millionth, the generation and the version, and drops the anchor |
| ActionQueue.DispatchRefines | 2.firmware/src/platform/linux/linux_scheduled_action_queue.c:115-144 | What comes out is due, ascending in the six-key order, and at most everything that stays; what stays is a heap; together they are what was there; and no due action stays unless the limit was reached |
| ActionQueue.ScheduleKeeps | 2.firmware/src/platform/linux/linux_scheduled_action_queue.c:69-86 | A scheduled action joins the others under its insertion number and the heap stays one; a full queue changes nothing |
| ActionQueue.NothingIsLost | 2.firmware/src/platform/linux/linux_scheduled_action_queue.c:69-144 | Over any run of scheduling, dispatching and cancelling, on heaps that a cancel broke too: the accepted actions are those dispatched, those cancelled and those waiting, as multisets |
| ActionQueue.HeapIsKept | 2.firmware/src/platform/linux/linux_scheduled_action_queue.c:69-144 | The heap stays one over every run whose cancels fit, in particular over every run without cancels |
| ActionQueue.RootIsLeast | 2.firmware/src/platform/linux/linux_scheduled_action_queue.c:29-40 | In a heap the first entry is at most every other in the six-key order |
| ActionQueue.SiftUpHeaps | 2.firmware/src/platform/linux/linux_scheduled_action_queue.c:29-40 | Sifting up repairs a heap that is wrong at one edge, and permutes |
| ActionQueue.SiftDownHeaps | 2.firmware/src/platform/linux/linux_scheduled_action_queue.c:42-61 | Sifting down repairs a heap that is wrong below one entry, and permutes |
| ActionQueue.CancelTakesOne | 2.firmware/src/platform/linux/linux_scheduled_action_queue.c:88-113 | Cancelling removes exactly the action it found |
| ActionQueue.CancelKeepsHeapIff | 2.firmware/src/platform/linux/linux_scheduled_action_queue.c:102-108 | As it only sifts down, the heap survives if and only if the gap is at the end or the root, or the moved action is not less than the parent of the gap |
| ActionQueue.CancelCanHideADueAction | 2.firmware/src/platform/linux/linux_scheduled_action_queue.c:88-144 | A concrete heap of seven where a cancel makes dispatch leave a due action behind |
| RepoTransaction.BeginOwns | 2.firmware/src/infrastructure/repositories/repo_transaction.c:12-31 | A transaction begins with a private copy of what readers see |
| RepoTransaction.WriteIsPrivate | 2.firmware/src/infrastructure/repositories/repo_transaction.c:90-105 | A write changes exactly the named fields, as the transaction sees them and as nobody else does |
| RepoTransaction.CommitPublishes | 2.firmware/src/infrastructure/repositories/repo_transaction.c:33-60 | Commit publishes all of them at once under the next version |
| RepoTransaction.AbortForgets | 2.firmware/src/infrastructure/repositories/repo_transaction.c:62-70 | Abort publishes none of them |
| MeasurementManager.SnapshotsAreCoherent | 2.firmware/src/services/measurement/measurement_manager.c:205-375 | In every run, interleaved with any transactions of other writers: once a flow event has committed, each snapshot readers see has the leak result computed from its own volume and flow, the volume last consumed its own flow, and the volume is that of the live accumulator |
| MeasurementManager.FailedEventChangesNothing | 2.firmware/src/services/measurement/measurement_manager.c:205-375 | A flow event commits if and only if the services succeed, the pipeline is bound, the drivers deliver and the sample passes the guards of the volume step; otherwise readers, accumulator and leak state keep what they had; the three ready events are posted exactly on commit |
| MeasurementGaps.VolumeMovesIff | 2.firmware/src/services/measurement/measurement_manager.c:205-375 | In every run of flow, pressure and other events, with other writers in between: the volume moves if and only if some event brings, with everything else in place, a sample that the accumulator of the beginning takes, that is, from a valid anchor, one within the gap after that anchor; otherwise leak state and what readers see of flow, volume and leak do not move either |
| MeasurementGaps.OneGapIsForever | 2.firmware/src/services/measurement/measurement_manager.c:286-289 | One gap is enough: once a flow sample comes too late after the anchor and sample times do not go back behind it, volume, leak state and what readers see of them never move again |
| LeakTracker.ActivationIsGenuine | 2.firmware/src/services/leak/leak_tracker.c:10-91 | Over any samples: a tracker that counts an activation saw the entry condition at every usable sample from its entry start to the activation, for at least the entry duration |
| LeakTracker.ClearingIsEarned | 2.firmware/src/services/leak/leak_tracker.c:10-91 | However the durations change from sample to sample: such a tracker becomes inactive only at a usable sample, after the clear condition and not the entry condition held at every usable sample for the clear duration of that moment; lost data alone never clears it |
| LeakTracker.ActiveIff | 2.firmware/src/services/leak/leak_tracker.c:10-91 | Over any samples and any changes of the durations: a tracker counts an activation if and only if, since it was last fresh, a pending phase ended by one; and it is active or clearing without having counted one if and only if, since then, a usable sample with the clear and without the entry condition arrived while it was pending |
| LeakTracker.SustainedEntryActivatesIff | 2.firmware/src/services/leak/leak_tracker.c:49-69 | Uninterrupted entry from rest activates if and only if it lasts for the entry duration after its first sample |
| LeakTracker.ActiveWithoutSustainedEntry | 2.firmware/src/services/leak/leak_tracker.c:56-82 | The shortest input that gets there: three samples make an active tracker that counts no activation, whatever the durations |
| LeakDetection.MediumIsEarned | 2.firmware/src/services/leak/leak_detection.c:23-93 | Over any run of evaluations, configurations and resets: severity MEDIUM is reached only when every usable sample from some entry start on, over the suspect duration up to the activation, met the entry condition, and the confirm duration has passed since |
| LeakSustained.SustainedFlowConfirmsIff | 2.firmware/src/services/leak/leak_detection.c:23-93 | From every reachable state that is not confirmed, a continuous flow that goes on for the suspect and then the confirm duration is confirmed with severity MEDIUM if and only if the continuous tracker had not got round its activation |
| LeakSustained.SteadyReadingsConfirmIff | 2.firmware/src/services/leak/leak_detection.c:23-93 | The same from conditions that can be read before the run: usable, new readings of continuous flow in the order of time, and a burst tracker that rests or is pending and ended by the first reading |
| LeakSustained.BypassedNeverConfirms | 2.firmware/src/services/leak/leak_detection.c:65-81 | A tracker that did get round it keeps the leak suspected for as long as the flow goes on: MEDIUM is never reached |
| LeakSustained.BypassedIff | 2.firmware/src/services/leak/leak_tracker.c:56-82 | In every run of the service that condition can be read off the samples: since the tracker was last fresh, a sample with the clear and without the entry condition ended a pending phase |
| LeakSustained.LostDataNeverEndsALeak | 2.firmware/src/services/leak/leak_detection.c:83-93 | In every run of evaluations without usable flow data and of configurations that change the durations meanwhile, a confirmed leak stays confirmed while a flow tracker counts an activation |
| LeakDetection.LostFlowKeepsConfirmed | 2.firmware/src/services/leak/leak_detection.c:83-93 | One such evaluation |
| LeakDetection.RunKeepsInv | 2.firmware/src/services/leak/leak_detection.c:111-281 | Severity and state agree, and until confirmation the tracker fields tell the truth about the samples under the present configuration, in every run |
| Scheduler.NextAnchoredIff | 2.firmware/src/infrastructure/time/monotonic_scheduler.c:34-48 | Rescheduling lands on a whole number of periods after the anchor, in (now, now + period], if and only if that boundary fits in 64 bits |
| Scheduler.RescheduledIsLater | 2.firmware/src/infrastructure/time/monotonic_scheduler.c:208-214 | A fired job moves to a later point of its grid, within one period of now |
| Scheduler.NeverDrifts | 2.firmware/src/infrastructure/time/monotonic_scheduler.c:158-221 | In every run from the empty scheduler: each deadline is a whole number of periods after its anchor, no boundary of a scheduling produces two events, and a one-shot produces at most one |
| Scheduler.DispatchKeeps | 2.firmware/src/infrastructure/time/monotonic_scheduler.c:158-221 | One dispatch keeps all of that, and gives no more events than there is room for |
| SchedulerDispatch.DispatchIs | 2.firmware/src/infrastructure/time/monotonic_scheduler.c:158-221 | The loop that removes and reschedules as it goes emits the events of the jobs that are due and not pending, in order, as many as there is room for, and treats each job it reaches on its own |
| SchedulerDispatch.JobOutcome | 2.firmware/src/infrastructure/time/monotonic_scheduler.c:158-221 | For each job: its event comes out if and only if it is due, not pending, and there is room behind the events of the jobs ahead; it is left untouched, moved on or removed accordingly |
| SchedulerDispatch.NothingDueIsLeft | 2.firmware/src/infrastructure/time/monotonic_scheduler.c:158-221 | After a dispatch that did not use up its room every due job that was not pending has its event, and no job is due unless an earlier event of it is not acknowledged and its policy is not SKIP |
| SchedulerDispatch.LateJobFiresIff | 2.firmware/src/infrastructure/time/monotonic_scheduler.c:180-213 | A due job of policy SIGNAL_ONCE or OWNER_SPECIFIC emits one event and moves beyond now, however late it is, if and only if it is not pending and there is room; otherwise it stays as it is, with its old deadline |
| SchedulerDispatch.KeptUntilAcknowledged | 2.firmware/src/infrastructure/time/monotonic_scheduler.c:180-197 | Over every run in which its name is neither acknowledged nor cancelled, a pending job of such a policy stays as it is and emits nothing |
| SchedulerDispatch.FiresOnceAcknowledged | 2.firmware/src/infrastructure/time/monotonic_scheduler.c:147-213 | Once it is acknowledged, the next dispatch with room that finds it due emits its event for the old boundary |
| Interpolation.CheckedAdd | 2.firmware/src/infrastructure/numeric/checked_math.c:4-12 | A result exactly when the sum fits in 64 bits, and then the sum |
| Interpolation.CheckedSub | 2.firmware/src/infrastructure/numeric/checked_math.c:14-22 | A result exactly when the difference fits in 64 bits, and then the difference |
| Interpolation.CheckedMul | 2.firmware/src/infrastructure/numeric/checked_math.c:24-37 | A result exactly when the product fits in 64 bits, in every quadrant, and then the product |
| Interpolation.RoundTowards | 2.firmware/src/infrastructure/numeric/checked_math.c:76-91 | The sign changes, quotient and remainder compute the specified rounding, for divisors of either sign and zero |
| Interpolation.RoundIsNearestIff | 2.firmware/src/infrastructure/numeric/checked_math.c:76-91 | The result is nearest to the quotient exactly as stated: for non-negative values except a low remainder beside the half of an odd divisor at an odd quotient; for negative ones only at the half |
| Interpolation.RoundByOne | 2.firmware/src/infrastructure/numeric/checked_math.c:76-91 | Dividing an odd number by one does not give the number |
| Interpolation.TableIsMonotonic | 2.firmware/src/infrastructure/numeric/interpolation.c:4-12 | True if and only if there are two entries or more and both columns increase strictly |
| Interpolation.FindSegment | 2.firmware/src/infrastructure/numeric/interpolation.c:27-35 | The binary search finds the segment that x falls in |
| Interpolation.InterpolateInTable | 2.firmware/src/infrastructure/numeric/interpolation.c:14-50 | Clamps, search and checked arithmetic compute the specified value, or fail at the first step that does not fit |
| Interpolation.InterpolateBounds | 2.firmware/src/infrastructure/numeric/interpolation.c:14-50 | On an increasing table the result lies between the entries around x, hence in the table and in 64 bits |
| Interpolation.InterpolateMonotone | 2.firmware/src/infrastructure/numeric/interpolation.c:14-50 | It never falls as x grows, over all segments and both clamps |
| Interpolation.ExactAtKnots | 2.firmware/src/infrastructure/numeric/interpolation.c:14-50 | At every entry it is that entry |
| Interpolation.InterpolateSucceedsIff | 2.firmware/src/infrastructure/numeric/interpolation.c:37-46 | There is a result if and only if x is clamped or its segment's two differences and product fit in 64 bits: a wrapped difference never passes |
| StorageServiceObject.StorageServiceDevice.constructor | 2.firmware/src/services/storage/storage_service.c:220-239 | The service starts idle, with nothing pending or ready and identifiers from 1 |
| StorageServiceObject.StorageServiceDevice.Submit | 2.firmware/src/services/storage/storage_service.c:65-119 | One operation with a fresh token and the deadline guard; a refusal leaves nothing pending and fails the commit or the restore |
| StorageServiceObject.StorageServiceDevice.ConsumeIo | 2.firmware/src/services/storage/storage_service.c:153-172 | A completion is consumed once; only a complete transfer moves on, a short one counts as a failure |
| StorageServiceObject.StorageServiceDevice.FailIo | 2.firmware/src/services/storage/storage_service.c:137-151 | A failure ends a restore with an I/O error and a commit with a completion that says whether its generation was cancelled |
| StorageServiceObject.StorageServiceDevice.SubmitCheckpoint | 2.firmware/src/services/storage/storage_service.c:241-276 | The object goes to the state the state machine prescribes: starts, replaces the waiting candidate, or refuses without effect |
| StorageServiceObject.StorageServiceDevice.PromotePending | 2.firmware/src/services/storage/storage_service.c:205-218 | The waiting candidate becomes the active commit, or is rejected with a completion |
| StorageServiceObject.StorageServiceDevice.OnIoCompletion | 2.firmware/src/services/storage/storage_service.c:278-295 | Only the completion with the token of the operation in flight is stored; any other only counts as stale |
| StorageServiceObject.StorageServiceDevice.ChooseTargetSlot | 2.firmware/src/services/storage/storage_service.c:297-318 | The target is set and the commit moves to invalidation, or ends with conflict or rejection |
| StorageServiceObject.StorageServiceDevice.DecodeRestore | 2.firmware/src/services/storage/storage_service.c:342-374 | The restore outcome is that of the two scanned slots, in the priority order of the failure reasons |
| StorageServiceObject.StorageServiceDevice.Tick | 2.firmware/src/services/storage/storage_service.c:376-538 | One turn of the object is one turn of the state machine, in every state, for any clock and any answer of the port |
| StorageServiceObject.StorageServiceDevice.TakeCompletion | 2.firmware/src/services/storage/storage_service.c:540-548 | A ready completion is handed out once |
| StorageServiceObject.StorageServiceDevice.StartRestoreVolume | 2.firmware/src/services/storage/storage_service.c:550-565 | A restore starts only at rest with nothing waiting and nothing to be taken |
| StorageServiceObject.StorageServiceDevice.TakeRestoredVolume | 2.firmware/src/services/storage/storage_service.c:567-579 | A ready restore result is handed out once and the service is idle again |
| FramObject.Fram.constructor | 2.firmware/src/drivers/storage/fram_driver.c:234-259 | The driver starts idle in generation 1 |
| FramObject.Fram.EmitCompletion | 2.firmware/src/drivers/storage/fram_driver.c:84-111 | One completion describes the operation as it was, and the driver is idle |
| FramObject.Fram.SubmitChunk | 2.firmware/src/drivers/storage/fram_driver.c:128-180 | The transfer handed to the bus is that of the next chunk; only on acceptance does the driver wait |
| FramObject.Fram.Begin | 2.firmware/src/drivers/storage/fram_driver.c:182-226 | An operation is refused without effect, completed at once when empty, or started, for any answer of the bus |
| FramObject.Fram.OnCompletion | 2.firmware/src/drivers/storage/fram_driver.c:295-340 | Only the report of the transfer in flight is taken; it fails, continues or completes the operation |
| FramObject.Fram.Cancel | 2.firmware/src/drivers/storage/fram_driver.c:342-353 | The operation in flight completes as cancelled and the client generation changes |
| I2cBusObject.I2cBus.BestPendingIndex | 2.firmware/src/infrastructure/bus/i2c_bus_manager.c:75-86 | The scan of the array finds the best waiting transfer |
| I2cBusObject.I2cBus.RemovePending | 2.firmware/src/infrastructure/bus/i2c_bus_manager.c:88-94 | The entries behind the removed one move up by one, in place, and the others stay |
| I2cBusObject.I2cBus.StartTransaction | 2.firmware/src/infrastructure/bus/i2c_bus_manager.c:42-73 | The transfer is active under the current generation, or nothing is |
| I2cBusObject.I2cBus.StartNext | 2.firmware/src/infrastructure/bus/i2c_bus_manager.c:96-107 | The loop over the queue, with callbacks that submit in between, serves it as specified |
| I2cBusObject.I2cBus.Notify | 2.firmware/src/infrastructure/bus/i2c_bus_manager.c:24-40 | The client of the transfer hears its end once, and what it submits is admitted one after the other |
| I2cBusObject.I2cBus.Submit | 2.firmware/src/infrastructure/bus/i2c_bus_manager.c:156-214 | Every refusal in order, or the transfer active or appended, under a new identifier |
| I2cBusObject.I2cBus.Complete | 2.firmware/src/infrastructure/bus/i2c_bus_manager.c:216-242 | Only the tuple of the active transfer ends it, and the next one starts |
| I2cBusObject.I2cBus.Tick | 2.firmware/src/infrastructure/bus/i2c_bus_manager.c:271-288 | A transfer past its deadline ends as timed out in a new generation |
| I2cBusObject.I2cBus.CancelClient | 2.firmware/src/infrastructure/bus/i2c_bus_manager.c:290-319 | All transfers of a client, waiting and active, end as cancelled, also those its callbacks add behind the scan, and their number is returned in eight bits |
| I2cBusObject.I2cBus.Recover | 2.firmware/src/infrastructure/bus/i2c_bus_manager.c:321-340 | The active transfer ends as cancelled in a new generation and the queue goes on |
| I2cBusObject.I2cBus.Register | 2.firmware/src/infrastructure/bus/i2c_bus_manager.c:133-143 | A client is added if it is well formed, new, and there is room |
| EventQueueObject.AppEventQueue.constructor | 2.firmware/src/infrastructure/queues/app_event_queue.c:43-67 | An empty queue under the clamped configuration |
| EventQueueObject.AppEventQueue.FindCoalesceTarget | 2.firmware/src/infrastructure/queues/app_event_queue.c:21-40 | The scan finds the oldest waiting level event of the same identity and source, if there is one |
| EventQueueObject.AppEventQueue.PostEvent | 2.firmware/src/infrastructure/queues/app_event_queue.c:69-114 | The event replaces its level predecessor, is appended, or is refused by the reservation or the capacity, as a sequence operation |
| EventQueueObject.AppEventQueue.BestIndex | 2.firmware/src/infrastructure/queues/app_event_queue.c:173-192 | The scan finds the oldest event of the best priority, or simply the oldest after four urgent dequeues |
| EventQueueObject.AppEventQueue.TryGet | 2.firmware/src/infrastructure/queues/app_event_queue.c:157-234 | That event leaves the queue, the others keep their order, and the streak counts |
| Max35103Object.Max35103.Configure | 3.stm32/Drivers/MAX35103/max35103.c:1594-1667 | Eleven writes with read-back, stopping at the first that fails, change host and device as specified |
| Max35103Object.Max35103.WriteReg | 3.stm32/Drivers/MAX35103/max35103.c:2413-2456 | An unverified write always ends the claim that the shadow is true |
| Max35103Object.Max35103.WriteVerifyReg | 3.stm32/Drivers/MAX35103/max35103.c:2458-2532 | A verified write updates the shadow if it reads back as written, and drops it otherwise |
| Max35103BusObject.Max35103Spi.Acquire | 3.stm32/Drivers/MAX35103/max35103.c:96-113 | The lock hook runs once, and the bus is held if and only if it succeeds |
| Max35103BusObject.Max35103Spi.Release | 3.stm32/Drivers/MAX35103/max35103.c:121-131 | The bus is free and the unlock hook has run once, if it was held |
| Max35103BusObject.Max35103Spi.CancelPending | 3.stm32/Drivers/MAX35103/max35103.c:457-478 | An active transfer is given up and the bus released before the request is forgotten |
| Max35103BusObject.Max35103Spi.Stage | 3.stm32/Drivers/MAX35103/max35103.c:726-773 | A request is staged under the next token, or refused while one is pending |
| Max35103BusObject.Max35103Spi.OnSpiDone | 3.stm32/Drivers/MAX35103/max35103.c:2073-2237 | Only the pending token is taken; the bus is released before the machine moves on |
| Max35103BusObject.Max35103Spi.StartPendingAsync | 3.stm32/Drivers/MAX35103/max35103.c:2022-2071 | A transfer that completes inside its own start is not released twice; one that does not start gives the bus back |
| Max35103BusObject.Max35103Spi.Execute | 3.stm32/Drivers/MAX35103/max35103.c:2239-2264 | One blocking frame holds the bus while it lasts; a busy bus leaves the request pending; the status says how the frame ended |
| VolumeObject.CheckedMul | 2.firmware/src/services/volume/volume_accumulator.c:7-12 | Reports overflow if and only if the product needs more than 64 bits; otherwise it is the product |
| VolumeObject.CheckedAdd | 2.firmware/src/services/volume/volume_accumulator.c:14-19 | Reports overflow if and only if the sum needs more than 64 bits; otherwise it is the sum |
| VolumeObject.Accumulating.Integrate | 2.firmware/src/services/volume/volume_accumulator.c:163-198 | An interval is added with its remainder carried, or nothing is changed when a number does not fit |
| VolumeObject.Accumulating.Consume | 2.firmware/src/services/volume/volume_accumulator.c:57-213 | Gates, anchoring, gap, integration and publication in the order of the original |
| ActionQueueObject.LinuxScheduledActionQueue.HeapSiftUp | 2.firmware/src/platform/linux/linux_scheduled_action_queue.c:29-40 | The loop over the array swaps its way up as specified |
| ActionQueueObject.LinuxScheduledActionQueue.HeapSiftDown | 2.firmware/src/platform/linux/linux_scheduled_action_queue.c:42-61 | The loop over the array swaps its way down as specified |
| ActionQueueObject.LinuxScheduledActionQueue.Schedule | 2.firmware/src/platform/linux/linux_scheduled_action_queue.c:69-86 | Append and sift up in place, or refuse when full |
| ActionQueueObject.LinuxScheduledActionQueue.Cancel | 2.firmware/src/platform/linux/linux_scheduled_action_queue.c:88-113 | Find, check the generation, fill the gap with the last entry, sift down |
| ActionQueueObject.LinuxScheduledActionQueue.DispatchDue | 2.firmware/src/platform/linux/linux_scheduled_action_queue.c:115-144 | Take the root while it is due and there is room |
| RepoObject.RepoWriteTxn.Begin | 2.firmware/src/infrastructure/repositories/repo_transaction.c:12-31 | One writer at a time; the inactive buffer becomes a copy of the active one |
| RepoObject.RepoWriteTxn.Commit | 2.firmware/src/infrastructure/repositories/repo_transaction.c:33-60 | The active index flips, once, under the next version |
| RepoObject.RepoWriteTxn.Abort | 2.firmware/src/infrastructure/repositories/repo_transaction.c:62-70 | The writer is gone and the active buffer untouched |
| RepoObject.RepoWriteTxn.Write | 2.firmware/src/infrastructure/repositories/repo_transaction.c:90-105 | Only the named fields of the inactive buffer change |
| RepoObject.RepoWriteTxn.ReadSnapshot | 2.firmware/src/infrastructure/repositories/repo_transaction.c:72-87 | The transaction reads its own buffer while it is active |
| RepoObject.MeasurementManager.FlowChain | 2.firmware/src/services/measurement/measurement_manager.c:277-331 | Flow, volume and leak on copies, each seeing what came before, nothing visible outside |
| RepoObject.MeasurementManager.ProcessEvent | 2.firmware/src/services/measurement/measurement_manager.c:205-375 | The outcome, the live services and what readers see are those of the specified event |
| LeakObject.EvidenceTracker.Evaluate | 2.firmware/src/services/leak/leak_tracker.c:10-91 | The five phases with their timestamps, assignment by assignment |
| LeakObject.DetectionService.BuildResult | 2.firmware/src/services/leak/leak_detection.c:23-109 | The transitions of the state and of its severity, one after the other |
| LeakObject.DetectionService.Evaluate | 2.firmware/src/services/leak/leak_detection.c:111-204 | Duplicate gate, four trackers each on its own conditions, then the result |
| LeakObject.DetectionService.ApplyConfig | 2.firmware/src/services/leak/leak_detection.c:240-257 | An invalid configuration changes nothing; a confirmed leak keeps its flow trackers |
| SchedulerObject.JobScheduler.IndexOf | 2.firmware/src/infrastructure/time/monotonic_scheduler.c:6-15 | The scan finds the first job of that name |
| SchedulerObject.JobScheduler.RemoveAt | 2.firmware/src/infrastructure/time/monotonic_scheduler.c:17-25 | The jobs behind move up by one, in place |
| SchedulerObject.JobScheduler.ScheduleOneShot | 2.firmware/src/infrastructure/time/monotonic_scheduler.c:57-89 | A new job at its deadline, or refused when full or taken |
| SchedulerObject.JobScheduler.SchedulePeriodic | 2.firmware/src/infrastructure/time/monotonic_scheduler.c:91-128 | A new job at the first boundary after now, or refused |
| SchedulerObject.JobScheduler.Cancel | 2.firmware/src/infrastructure/time/monotonic_scheduler.c:130-145 | Removed only under its own generation |
| SchedulerObject.JobScheduler.Acknowledge | 2.firmware/src/infrastructure/time/monotonic_scheduler.c:147-156 | No longer pending, only under its own generation |
| SchedulerObject.JobScheduler.DispatchDue | 2.firmware/src/infrastructure/time/monotonic_scheduler.c:158-221 | The loop over the array, removing and rescheduling as it goes, emits and leaves what is specified |

## Left out

- What a completion callback of another client does to its own memory: the bus knows callbacks only by the lists of transfers they submit.
- An operation that the owner of the storage port starts inside the callback of the previous one: `FramOnBus` has it start afterwards.
- StorageService keeps its slot buffers as sequences that the object replaces, so bytes that land in a buffer before their completion are modelled by `Receive` and not by shared memory; the same holds of the F-RAM driver's caller buffers.
- StorageServiceObject.StorageServiceDevice.Tick: the class keeps the fields of the operation, the slot being written and the results as records that its methods replace field by field, not as single fields.
- Configuration and calibration records take part in every run and may be torn, but no durability is stated for them: their encoders are not part of the repository's storage code.
- StorageRecord.ClassifySlot: requires that a volume slot reaches offset 0x28 or that the payload asked for does; with neither the code would read past the buffer.
- Interpolation.SegmentValue: the final sum is unbounded in the model; `InterpolateBounds` shows that on an increasing table it fits.
- Scheduler.NeverDrifts: excludes calls within one period of the end of 64-bit time; `NextAnchoredIff` says exactly what happens there.
- VolumeAccumulator.CheckpointSurvives: what the record does not hold (binding, times, flags) is not restored by it.
- MeasurementManager.SnapshotsAreCoherent: rebinding the flow pipeline resets the claim until the next flow event commits; the registered services are an oracle that writes pressure, temperature, mode and power only, and the flow computation itself is an input.
- EventQueueBounds.BehindBoundedIff: leaves open, between its two bounds, an event that waits behind a critical event, or with four or more urgent events behind it that have to wait for an urgent one ahead, or behind an urgent event in a full queue; there the order of all of them decides.
- Max35103Bus.OwnershipHolds: runs begin at an initialisation and have no second one; `MAX35103_Init` while a transfer holds the lock forgets that it is held.
- FramSafety.TakesOwnReport: takes what the bus holds under the driver's identifier as given; `FramOnBusSafety.EachOperationCompletesOnce` proves it.
- Diagnostic counters of all parts (stale, rejected, overflow, timeout counts), except activations and evaluations, which the code's decisions use.
- The static CRC table cache; the table is built for each checksum.
- The event queue's critical section and its ring positions as such: the head never moves in the code, so the array starts at 0.
- RepoObject.MeasurementManager.ProcessEvent: and `FlowChain` take the result of the flow computation and what the registered services write as inputs.
- Max35103BusObject.Max35103Spi.OnSpiDone: takes what the event machine decides after the frame as an input.
- The event machine of the MAX35103 (result decoding, result rings, timeouts, temperature): what it does after a frame is an arbitrary decision in `Max35103Bus`; a power-on reset seen while reading results, after which the code keeps the shadow, is excluded by the device assumption.
- The leak result's reason texts, evidence and quality flags; the acknowledgement of a checkpoint to the live accumulator.
- Job mode masks and the event fields that are copied through dispatch; `serial` in the job model exists for the statements only.
- Facades and small queries (`is_busy`, counts, next deadline, `bind_completion`), `widened_mul_i64`, saturating arithmetic and gain/offset: they would add easy members.
- The SPI bus manager (the same shape as the I2C manager), the state machines and fixed tables of the application, telemetry and cellular delivery, HAL code, the Linux simulator's I/O.
- Preemption: every call runs to its end, as in the cooperative runtime.
