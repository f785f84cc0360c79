/** storage_service.c in its own form: one context, updated in place, against the state machine it implements. */
module StorageServiceObject {
  import opened Bits
  import opened LittleEndian
  import opened StorageRecord
  import opened AbSlot
  import opened StoragePort
  import Spec = StorageService
  import opened StorageService

  /** The context structure: the commit or restore in progress, its buffers, its operation, and the waiting record. */
  datatype Context = Context(
    state: State, active: Candidate, requestId: nat, slotSize: nat, readback: Slot, scanA: Slot, scanB: Slot,
    targetSlot: SlotIndex, targetAddress: nat, writeOffset: nat, ioByte: uint8, io: Io, pending: Option<Candidate>)

  class StorageServiceDevice {
    var context: Context
    var generation: uint32
    var nextOperationId: uint32
    var nextCorrelationId: uint32
    var ioTimeoutUs: uint32
    var requestCount: nat
    var lastCompletion: Completion
    var completionReady: bool
    var restoreStatus: RestoreStatus
    var restoredVolume: Restored
    var restoreReady: bool
    var staleCompletionCount: nat

    /** The state machine's value that this object stands for. */
    ghost function View(): Service
      reads this
    {
      var c := context;
      Service(c.state, c.active, c.requestId, c.slotSize, c.readback, c.scanA, c.scanB, c.targetSlot, c.targetAddress,
              c.writeOffset, c.ioByte, c.io, c.pending, generation, nextOperationId, nextCorrelationId, ioTimeoutUs,
              requestCount, lastCompletion, completionReady, restoreStatus, restoredVolume, restoreReady,
              staleCompletionCount)
    }

    /** StorageService_Init on a bound port. */
    constructor (timeoutUs: uint32)
      ensures View() == InitialService(timeoutUs)
    {
      context := Context(Idle, Candidate(0, 0, 0, 0, Blank96()), 0, 0, Blank96(), Blank96(), Blank96(),
                         SlotA, 0, 0, 0, NO_IO, None);
      generation, nextOperationId, nextCorrelationId, ioTimeoutUs, requestCount := 1, 1, 1, timeoutUs, 0;
      lastCompletion, completionReady := Completion(0, 0, 0, SlotA, 0, CommitOk), false;
      restoreStatus, restoreReady, staleCompletionCount := RestoreOk, false, 0;
      restoredVolume := Restored(NO_VOLUME, 0, SlotA, ValidCompatible, ValidCompatible);
    }

    method NextToken() returns (token: Token)
      modifies this
      ensures View() == old(View()).(nextOperationId := NextId(old(nextOperationId)).1,
                                     nextCorrelationId := NextId(old(nextCorrelationId)).1)
      ensures token == Token(NextId(old(nextOperationId)).0, NextId(old(nextCorrelationId)).0, old(generation))
    {
      token := Token(nextOperationId, nextCorrelationId, generation);
      nextOperationId := (nextOperationId + 1) % 0x1_0000_0000;
      nextCorrelationId := (nextCorrelationId + 1) % 0x1_0000_0000;
      if token.operationId == 0 {
        token := token.(operationId := nextOperationId);
        nextOperationId := nextOperationId + 1;
      }
      if token.correlationId == 0 {
        token := token.(correlationId := nextCorrelationId);
        nextCorrelationId := nextCorrelationId + 1;
      }
    }

    /** submit_read and submit_write, with the port's answer, and fail_io when there is no operation. */
    method Submit(operation: Request, successState: State, advanceBytes: nat, now: uint64, accepted: bool)
        returns (request: Option<Request>)
      modifies this
      ensures (View(), request) == SubmitIo(old(View()), operation, successState, advanceBytes, now, accepted)
    {
      request := None;
      if UINT64_MAX - now < ioTimeoutUs {
        FailIo(IoBusError);
        return;
      }
      var token := NextToken();
      context := context.(io := Io(true, false, token, context.io.completion, successState, advanceBytes));
      if !accepted {
        context := context.(io := context.io.(pending := false, completed := false));
        FailIo(IoBusError);
        return;
      }
      request := Some(operation);
    }

    method FinishCommit(status: CommitStatus)
      modifies this
      ensures View() == Spec.FinishCommit(old(View()), status)
    {
      lastCompletion := Completion(context.requestId, context.active.version, context.active.kind, context.targetSlot,
                                   context.active.sequence, status);
      completionReady := true;
      context := context.(state := if status == CommitOk then Complete else Failed);
    }

    method FailIo(result: IoResult)
      modifies this
      ensures View() == Spec.FailIo(old(View()), result)
    {
      if IsRestore(context.state) {
        restoredVolume := Restored(NO_VOLUME, 0, NoSlot, IoError, IoError);
        restoreStatus, restoreReady := RestoreIoError, true;
        context := context.(state := RestoreFailed);
        return;
      }
      FinishCommit(if result == IoCancelled then CommitCancelledGeneration else CommitIoError);
    }

    method ConsumeIo() returns (consumed: bool)
      modifies this
      ensures consumed == old(context.io.pending && context.io.completed)
      ensures View() == if consumed then ConsumeIoCompletion(old(View())) else old(View())
    {
      if !context.io.pending || !context.io.completed {
        return false;
      }
      var completion := context.io.completion;
      context := context.(io := context.io.(pending := false, completed := false));
      if completion.result != IoOk || completion.transferredLength != completion.requestedLength {
        FailIo(if completion.result == IoOk then IoShortTransfer else completion.result);
        return true;
      }
      context := context.(writeOffset := (context.writeOffset + context.io.advance) % 0x1_0000,
                          state := context.io.successState);
      return true;
    }

    method PrepareActiveCandidate(candidate: Candidate) returns (ok: bool)
      modifies this
      ensures ok == Acceptable(candidate.kind, candidate.length)
      ensures View() == if ok then PrepareActive(old(View()), candidate) else old(View())
    {
      hide Blank96, IsTerminal, Zeros;
      var size := Spec.SlotSize(candidate.kind);
      if size == 0 || size > MAX_SLOT_SIZE || candidate.length < HEADER_SIZE || candidate.length > size {
        return false;
      }
      requestCount := requestCount + 1;
      context := context.(active := candidate, requestId := requestCount, slotSize := size, writeOffset := 0,
                          pending := None, readback := Blank96(), scanA := Blank96(), scanB := Blank96(), state := ScanA);
      return true;
    }

    method PromotePending()
      requires context.pending.Some?
      modifies this
      ensures View() == Spec.PromotePending(old(View()))
    {
      var candidate := context.pending.value;
      context := context.(pending := None);
      var ok := PrepareActiveCandidate(candidate);
      if !ok {
        FinishCommit(CommitRejected);
      }
    }

    /** StorageService_SubmitCheckpoint. */
    method SubmitCheckpoint(kind: uint8, sequence: uint32, encoded: Slot, version: uint64) returns (status: Status)
      modifies this
      ensures (View(), status) == Spec.SubmitCheckpoint(old(View()), kind, sequence, encoded, version)
    {
      if |encoded| == 0 || IsRestore(context.state) {
        return StatusRejected;
      }
      var size := Spec.SlotSize(kind);
      var fits := HEADER_SIZE <= |encoded| <= size;
      if IsTerminal(context.state) {
        if completionReady {
          return StatusBusy;
        }
        if !fits {
          return StatusRejected;
        }
        var ok := PrepareActiveCandidate(Candidate(kind, sequence, version, |encoded|, Padded(encoded)));
        return if ok then StatusOk else StatusRejected;
      }
      if !fits {
        return StatusRejected;
      }
      context := context.(pending := Some(Candidate(kind, sequence, version, |encoded|, Padded(encoded))));
      return StatusBusy;
    }

    /** StorageService_OnIoCompletion. */
    method OnIoCompletion(completion: IoCompletion)
      modifies this
      ensures View() == Spec.OnIoCompletion(old(View()), completion)
    {
      var io := context.io;
      if !io.pending || io.completed || completion.token.operationId != io.token.operationId
         || completion.token.correlationId != io.token.correlationId || completion.token.ownerGeneration != generation {
        staleCompletionCount := staleCompletionCount + 1;
        return;
      }
      context := context.(io := io.(completion := completion, completed := true));
    }

    method ChooseTargetSlot()
      requires Buffers(View()) && 0x28 <= context.slotSize <= MAX_SLOT_SIZE
      modifies this
      ensures View() == Spec.ChooseTargetSlot(old(View()))
    {
      hide Select, ChooseTarget, Read16;
      var selected := Select(context.scanA[..context.slotSize], context.scanB[..context.slotSize],
                             context.active.kind, context.active.buffer[5], Read16(context.active.buffer, 6));
      context := context.(targetSlot := ChooseTarget(selected));
      if context.targetSlot == NoSlot {
        FinishCommit(if selected.status == SequenceConflict then CommitSequenceConflict else CommitRejected);
        return;
      }
      context := context.(targetAddress := Spec.SlotAddress(context.targetSlot, context.active.kind), writeOffset := 0,
                          state := Invalidate);
    }

    method DecodeRestore()
      requires Buffers(View())
      modifies this
      ensures View() == Spec.DecodeRestore(old(View()))
    {
      hide Select, Decode, Read32, RestoreFailure;
      var a, b := context.scanA[..VOLUME_SLOT_SIZE], context.scanB[..VOLUME_SLOT_SIZE];
      var selected := SelectVolume(a, b);
      restoredVolume := Restored(NO_VOLUME, 0, selected.selected, selected.reasonA, selected.reasonB);
      if selected.status != Selected {
        restoreStatus := RestoreFailure(selected);
      } else {
        var slot := if selected.selected == SlotB then b else a;
        var decoded := DecodeVolume(slot);
        if decoded.Some? {
          restoredVolume := restoredVolume.(volume := decoded.value);
        }
        restoredVolume := restoredVolume.(sequence := Read32(slot, 8));
        restoreStatus := if decoded.Some? then RestoreOk else RestoreCorrupt;
      }
      restoreReady := true;
      context := context.(state := RestoreComplete);
    }

    /** The body's next chunk, written or read back, or the step after the last one. */
    method TickBody(now: uint64, accepted: bool) returns (request: Option<Request>)
      requires Shape(View()) && !context.io.pending && (context.state == WriteBody || context.state == ReadbackBody)
      modifies this
      ensures (View(), request) == Spec.Tick(old(View()), now, accepted)
    {
      hide SubmitIo, Blank96;
      request := None;
      var bodySize := context.slotSize - 1;
      if context.writeOffset >= bodySize {
        if context.state == WriteBody {
          context := context.(writeOffset := 0, state := ReadbackBody);
        } else {
          context := context.(state := VerifyBody);
        }
        return;
      }
      var chunk := BODY_CHUNK_BYTES;
      if context.writeOffset + chunk > bodySize {
        chunk := bodySize - context.writeOffset;
      }
      var address := context.targetAddress + context.writeOffset;
      var operation := if context.state == WriteBody
        then Write(address, context.active.buffer[context.writeOffset..context.writeOffset + chunk])
        else Read(address, chunk);
      request := Submit(operation, context.state, chunk, now, accepted);
    }

    /** The states that read or write the commit byte. */
    method TickCommitByte(now: uint64, accepted: bool) returns (request: Option<Request>)
      requires Shape(View()) && !context.io.pending
      requires var s := context.state; s == Invalidate || s == VerifyInvalidate || s == Commit || s == VerifyCommit
      modifies this
      ensures (View(), request) == Spec.Tick(old(View()), now, accepted)
    {
      hide SubmitIo, Blank96;
      var address := context.targetAddress + context.slotSize - 1;
      if context.state == Invalidate {
        context := context.(ioByte := COMMIT_INVALID);
        request := Submit(Write(address, [COMMIT_INVALID]), VerifyInvalidate, 0, now, accepted);
      } else if context.state == VerifyInvalidate {
        request := Submit(Read(address, 1), CheckInvalidate, 0, now, accepted);
      } else if context.state == Commit {
        context := context.(ioByte := COMMIT_VALID);
        request := Submit(Write(address, [COMMIT_VALID]), VerifyCommit, 0, now, accepted);
      } else {
        request := Submit(Read(address, 1), CheckCommit, 0, now, accepted);
      }
    }

    /** The states that read whole slots. */
    method TickScan(now: uint64, accepted: bool) returns (request: Option<Request>)
      requires Shape(View()) && !context.io.pending
      requires var s := context.state; s == ScanA || s == ScanB || s == RestoreScanA || s == RestoreScanB
      modifies this
      ensures (View(), request) == Spec.Tick(old(View()), now, accepted)
    {
      hide SubmitIo, Blank96;
      var (addressA, addressB) := (SlotAddress(SlotA, context.active.kind), SlotAddress(SlotB, context.active.kind));
      if context.state == ScanA {
        request := Submit(Read(addressA, context.slotSize), ScanB, 0, now, accepted);
      } else if context.state == ScanB {
        request := Submit(Read(addressB, context.slotSize), PrepareTarget, 0, now, accepted);
      } else if context.state == RestoreScanA {
        request := Submit(Read(0x140, VOLUME_SLOT_SIZE), RestoreScanB, 0, now, accepted);
      } else {
        request := Submit(Read(0x180, VOLUME_SLOT_SIZE), RestoreDecode, 0, now, accepted);
      }
    }

    /** The states that only decide. */
    method TickInternal()
      requires Shape(View()) && !context.io.pending && !MayPromote(View()) && Expected(View()).None?
      requires context.state != WriteBody && context.state != ReadbackBody
      modifies this
      ensures View() == InternalStep(old(View()))
    {
      hide Spec.FinishCommit, Spec.DecodeRestore, Spec.ChooseTargetSlot, Blank96;
      if context.state == PrepareTarget {
        ChooseTargetSlot();
      } else if context.state == CheckInvalidate {
        if context.ioByte == COMMIT_VALID {
          FinishCommit(CommitVerifyError);
        } else {
          context := context.(writeOffset := 0, state := WriteBody);
        }
      } else if context.state == VerifyBody {
        if context.active.buffer[..context.slotSize - 1] != context.readback[..context.slotSize - 1] {
          FinishCommit(CommitVerifyError);
        } else {
          context := context.(state := Commit);
        }
      } else if context.state == CheckCommit {
        if context.ioByte != COMMIT_VALID {
          FinishCommit(CommitVerifyError);
        } else {
          FinishCommit(CommitOk);
        }
      } else if context.state == RestoreDecode {
        DecodeRestore();
      }
    }

    /** StorageService_Tick, with the answer the port would give to a submission. */
    method Tick(now: uint64, accepted: bool) returns (request: Option<Request>)
      requires Shape(View())
      modifies this
      ensures (View(), request) == Spec.Tick(old(View()), now, accepted)
    {
      hide SubmitIo, InternalStep, Spec.PromotePending, Spec.FailIo;
      request := None;
      if context.io.pending {
        var _ := ConsumeIo();
        return;
      }
      if (context.state == Complete || context.state == Failed) && context.pending.Some? && !completionReady {
        PromotePending();
        return;
      }
      var s := context.state;
      if s == ScanA || s == ScanB || s == RestoreScanA || s == RestoreScanB {
        request := TickScan(now, accepted);
      } else if s == Invalidate || s == VerifyInvalidate || s == Commit || s == VerifyCommit {
        request := TickCommitByte(now, accepted);
      } else if s == WriteBody || s == ReadbackBody {
        request := TickBody(now, accepted);
      } else {
        TickInternal();
      }
    }

    /** StorageService_TakeCompletion. */
    method TakeCompletion() returns (completion: Option<Completion>)
      modifies this
      ensures (View(), completion) == Spec.TakeCompletion(old(View()))
    {
      if !completionReady {
        return None;
      }
      completionReady := false;
      return Some(lastCompletion);
    }

    /** StorageService_StartRestoreVolume. */
    method StartRestoreVolume() returns (status: Status)
      modifies this
      ensures (View(), status) == Spec.StartRestoreVolume(old(View()))
    {
      hide Blank96, IsTerminal, Zeros;
      if !IsTerminal(context.state) || context.pending.Some? || completionReady {
        return StatusBusy;
      }
      restoredVolume := Restored(NO_VOLUME, 0, NoSlot, ValidCompatible, ValidCompatible);
      restoreReady := false;
      context := context.(scanA := Blank96(), scanB := Blank96(), writeOffset := 0, state := RestoreScanA);
      return StatusOk;
    }

    /** StorageService_TakeRestoredVolume. */
    method TakeRestoredVolume() returns (result: Option<(RestoreStatus, Restored)>)
      modifies this
      ensures (View(), result) == Spec.TakeRestoredVolume(old(View()))
    {
      if !restoreReady {
        return None;
      }
      restoreReady := false;
      context := context.(state := Idle);
      return Some((restoreStatus, restoredVolume));
    }
  }
}
