/** The commit and restore state machine of storage_service.c. */
module StorageService {
  import opened Bits
  import opened LittleEndian
  import opened StorageRecord
  import opened AbSlot
  import opened StoragePort

  const MAX_SLOT_SIZE: nat := 96
  const BODY_CHUNK_BYTES: nat := 32
  const UINT64_MAX: uint64 := 0xFFFF_FFFF_FFFF_FFFF

  datatype State =
    | Idle | ScanA | ScanB | PrepareTarget | Invalidate | VerifyInvalidate | CheckInvalidate
    | WriteBody | ReadbackBody | VerifyBody | Commit | VerifyCommit | CheckCommit | Complete | Failed
    | RestoreScanA | RestoreScanB | RestoreDecode | RestoreComplete | RestoreFailed

  datatype Status = StatusOk | StatusBusy | StatusRejected

  datatype CommitStatus =
    | CommitOk | CommitRejected | CommitIoError | CommitVerifyError | CommitSequenceConflict | CommitCancelledGeneration

  datatype RestoreStatus =
    | RestoreOk | RestoreEmpty | RestoreCorrupt | RestoreUnsupportedSchema | RestoreIncompatible
    | RestoreSequenceConflict | RestoreIoError

  /** A record to be committed, in its zero-padded buffer. */
  datatype Candidate = Candidate(kind: uint8, sequence: uint32, version: uint64, length: nat, buffer: Slot)

  datatype Completion = Completion(
    requestId: nat, version: uint64, kind: uint8, selectedSlot: SlotIndex, sequence: uint32, status: CommitStatus)

  datatype Restored = Restored(
    volume: Volume, sequence: uint32, selectedSlot: SlotIndex, reasonA: Classification, reasonB: Classification)

  datatype Io = Io(
    pending: bool, completed: bool, token: Token, completion: IoCompletion, successState: State, advance: nat)

  const NO_VOLUME := Volume(0, 0, 0, 0, 0, 0, 0)
  const NO_TOKEN := Token(0, 0, 0)
  const NO_IO := Io(false, false, NO_TOKEN, IoCompletion(NO_TOKEN, IoOk, 0, 0), Idle, 0)

  function Blank96(): (z: Slot)
    ensures |z| == MAX_SLOT_SIZE
  {
    Zeros(MAX_SLOT_SIZE)
  }

  // ---------- Small lookups ----------

  function SlotAddress(slot: SlotIndex, kind: uint8): nat {
    if kind == TYPE_VOLUME then (if slot == SlotB then 0x180 else 0x140)
    else if kind == TYPE_CONFIG then (if slot == SlotB then 0x040 else 0x000)
    else if kind == TYPE_CALIBRATION then (if slot == SlotB then 0x0E0 else 0x080)
    else 0
  }

  function SlotSize(kind: uint8): nat {
    if kind == TYPE_VOLUME || kind == TYPE_CONFIG then 64
    else if kind == TYPE_CALIBRATION then 96
    else 0
  }

  predicate IsTerminal(s: State) {
    s == Idle || s == Complete || s == Failed
  }

  predicate IsRestore(s: State) {
    s == RestoreScanA || s == RestoreScanB || s == RestoreDecode || s == RestoreComplete || s == RestoreFailed
  }

  // ---------- The service as a value ----------

  datatype Service = Service(
    state: State, active: Candidate, requestId: nat, slotSize: nat,
    readback: Slot, scanA: Slot, scanB: Slot,
    targetSlot: SlotIndex, targetAddress: nat, writeOffset: nat, ioByte: uint8,
    io: Io, pending: Option<Candidate>,
    generation: uint32, nextOperationId: uint32, nextCorrelationId: uint32, ioTimeoutUs: uint32, requestCount: nat,
    lastCompletion: Completion, completionReady: bool,
    restoreStatus: RestoreStatus, restored: Restored, restoreReady: bool, staleCompletions: nat)

  function InitialService(ioTimeoutUs: uint32): Service {
    Service(Idle, Candidate(0, 0, 0, 0, Blank96()), 0, 0, Blank96(), Blank96(), Blank96(), SlotA, 0, 0, 0,
            NO_IO, None, 1, 1, 1, ioTimeoutUs, 0,
            Completion(0, 0, 0, SlotA, 0, CommitOk), false,
            RestoreOk, Restored(NO_VOLUME, 0, SlotA, ValidCompatible, ValidCompatible), false, 0)
  }

  predicate Buffers(s: Service) {
    && |s.active.buffer| == |s.readback| == |s.scanA| == |s.scanB| == MAX_SLOT_SIZE
    && (s.pending.Some? ==> |s.pending.value.buffer| == MAX_SLOT_SIZE)
  }

  function FinishCommit(s: Service, status: CommitStatus): Service {
    s.(lastCompletion := Completion(s.requestId, s.active.version, s.active.kind, s.targetSlot, s.active.sequence, status),
       completionReady := true,
       state := if status == CommitOk then Complete else Failed)
  }

  function FailIo(s: Service, result: IoResult): Service {
    if IsRestore(s.state) then
      s.(restored := Restored(NO_VOLUME, 0, NoSlot, IoError, IoError), restoreStatus := RestoreIoError,
         restoreReady := true, state := RestoreFailed)
    else FinishCommit(s, if result == IoCancelled then CommitCancelledGeneration else CommitIoError)
  }

  function ConsumeIoCompletion(s: Service): Service {
    if !s.io.completed then s
    else
      var c := s.io.completion;
      var done := s.(io := s.io.(pending := false, completed := false));
      if !IsComplete(c) then FailIo(done, if c.result == IoOk then IoShortTransfer else c.result)
      else done.(writeOffset := (s.writeOffset + s.io.advance) % 0x1_0000, state := s.io.successState)
  }

  /** The 32-bit identifiers skip zero when they wrap. */
  function NextId(next: uint32): (uint32, uint32) {
    if next == 0 then (1, 2) else (next, (next + 1) % 0x1_0000_0000)
  }

  /** The operation's bookkeeping, with a fresh token; pending stays set only if the port accepts. */
  function Staged(s: Service, successState: State, advance: nat, accepted: bool): Service {
    var (operation, nextOperation) := NextId(s.nextOperationId);
    var (correlation, nextCorrelation) := NextId(s.nextCorrelationId);
    s.(nextOperationId := nextOperation, nextCorrelationId := nextCorrelation,
       io := Io(accepted, false, Token(operation, correlation, s.generation), s.io.completion, successState, advance))
  }

  /** submit_read and submit_write: at most one operation. */
  function SubmitIo(s: Service, request: Request, successState: State, advance: nat, now: uint64, accepted: bool)
      : (Service, Option<Request>)
  {
    if UINT64_MAX - now < s.ioTimeoutUs then (FailIo(s, IoBusError), None)
    else
      var t := Staged(s, successState, advance, accepted);
      if accepted then (t, Some(request)) else (FailIo(t, IoBusError), None)
  }

  function Padded(encoded: Slot): (z: Slot)
    requires |encoded| <= MAX_SLOT_SIZE
    ensures |z| == MAX_SLOT_SIZE
  {
    encoded + Zeros(MAX_SLOT_SIZE - |encoded|)
  }

  predicate Acceptable(kind: uint8, length: nat) {
    HEADER_SIZE <= length <= SlotSize(kind)
  }

  function PrepareActive(s: Service, c: Candidate): Service {
    s.(active := c, requestId := s.requestCount + 1, requestCount := s.requestCount + 1, slotSize := SlotSize(c.kind),
       writeOffset := 0, pending := None, readback := Blank96(), scanA := Blank96(), scanB := Blank96(), state := ScanA)
  }

  function PromotePending(s: Service): Service
    requires s.pending.Some?
  {
    var c := s.pending.value;
    if Acceptable(c.kind, c.length) then PrepareActive(s, c)
    else FinishCommit(s.(pending := None), CommitRejected)
  }

  function SubmitCheckpoint(s: Service, kind: uint8, sequence: uint32, encoded: Slot, version: uint64)
      : (Service, Status)
  {
    if |encoded| == 0 || IsRestore(s.state) then (s, StatusRejected)
    else if IsTerminal(s.state) then
      if s.completionReady then (s, StatusBusy)
      else if !Acceptable(kind, |encoded|) then (s, StatusRejected)
      else (PrepareActive(s, Candidate(kind, sequence, version, |encoded|, Padded(encoded))), StatusOk)
    else if !Acceptable(kind, |encoded|) then (s, StatusRejected)
    else (s.(pending := Some(Candidate(kind, sequence, version, |encoded|, Padded(encoded)))), StatusBusy)
  }

  /** Only the completion of the operation in flight is taken. */
  predicate Matches(s: Service, c: IoCompletion) {
    && s.io.pending && !s.io.completed
    && c.token.operationId == s.io.token.operationId && c.token.correlationId == s.io.token.correlationId
    && c.token.ownerGeneration == s.generation
  }

  function OnIoCompletion(s: Service, c: IoCompletion): Service {
    if Matches(s, c) then s.(io := s.io.(completion := c, completed := true))
    else s.(staleCompletions := s.staleCompletions + 1)
  }

  function ChooseTargetSlot(s: Service): Service
    requires Buffers(s) && 0x28 <= s.slotSize <= MAX_SLOT_SIZE
  {
    var selection := Select(s.scanA[..s.slotSize], s.scanB[..s.slotSize], s.active.kind,
                            s.active.buffer[5], Read16(s.active.buffer, 6));
    var target := ChooseTarget(selection);
    var t := s.(targetSlot := target);
    if target == NoSlot then
      FinishCommit(t, if selection.status == SequenceConflict then CommitSequenceConflict else CommitRejected)
    else t.(targetAddress := SlotAddress(target, s.active.kind), writeOffset := 0, state := Invalidate)
  }

  function RestoreFailure(s: Selection): RestoreStatus {
    if s.status == SequenceConflict then RestoreSequenceConflict
    else if s.reasonA == EmptyUninitialized && s.reasonB == EmptyUninitialized then RestoreEmpty
    else if s.reasonA == IoError || s.reasonB == IoError then RestoreIoError
    else if s.reasonA == ValidUnsupportedSchema || s.reasonB == ValidUnsupportedSchema then RestoreUnsupportedSchema
    else if s.reasonA == ValidIncompatible || s.reasonB == ValidIncompatible then RestoreIncompatible
    else RestoreCorrupt
  }

  /** What a restore reports of the two slots it read. */
  function RestoreOutcome(a: Slot, b: Slot): (RestoreStatus, Restored)
    requires |a| == |b| == VOLUME_SLOT_SIZE
  {
    var selection := SelectVolume(a, b);
    var blank := Restored(NO_VOLUME, 0, selection.selected, selection.reasonA, selection.reasonB);
    if selection.status != Selected then (RestoreFailure(selection), blank)
    else
      var slot := if selection.selected == SlotB then b else a;
      match Decode(slot)
      case Some(v) => (RestoreOk, blank.(volume := v, sequence := Read32(slot, 8)))
      case None => (RestoreCorrupt, blank.(sequence := Read32(slot, 8)))
  }

  function DecodeRestore(s: Service): Service
    requires Buffers(s)
  {
    var (status, restored) := RestoreOutcome(s.scanA[..VOLUME_SLOT_SIZE], s.scanB[..VOLUME_SLOT_SIZE]);
    s.(restoreStatus := status, restored := restored, restoreReady := true, state := RestoreComplete)
  }

  function BodySize(s: Service): int { s.slotSize - 1 }

  function ChunkOf(size: int, offset: int): int {
    if offset + BODY_CHUNK_BYTES > size - 1 then size - 1 - offset else BODY_CHUNK_BYTES
  }

  /** The shape of a commit in progress: its slot size and, once chosen, its target. */
  predicate Shape(s: Service) {
    && Buffers(s)
    && (!IsTerminal(s.state) && !IsRestore(s.state) ==> SlotSize(s.active.kind) == s.slotSize >= 64)
  }

  /** The operation each state calls for, the state it leads to, and how far it moves the body offset. */
  function Expected(s: Service): Option<Request> {
    ExpectedOf(s.state, s.active, s.slotSize, s.targetAddress, s.writeOffset)
  }

  function ExpectedOf(state: State, active: Candidate, size: nat, target: nat, offset: nat): Option<Request> {
    var commitByte := if size == 0 then 0 else target + size - 1;
    var chunk := ChunkOf(size, offset);
    match state
    case ScanA => Some(Read(SlotAddress(SlotA, active.kind), size))
    case ScanB => Some(Read(SlotAddress(SlotB, active.kind), size))
    case Invalidate => Some(Write(commitByte, [COMMIT_INVALID]))
    case VerifyInvalidate | VerifyCommit => Some(Read(commitByte, 1))
    case WriteBody =>
      if offset < size - 1 && size <= |active.buffer| then Some(Write(target + offset, active.buffer[offset..offset + chunk]))
      else None
    case ReadbackBody => if offset < size - 1 then Some(Read(target + offset, chunk)) else None
    case Commit => Some(Write(commitByte, [COMMIT_VALID]))
    case RestoreScanA => Some(Read(0x140, VOLUME_SLOT_SIZE))
    case RestoreScanB => Some(Read(0x180, VOLUME_SLOT_SIZE))
    case _ => None
  }

  function SuccessState(s: State): State {
    match s
    case ScanA => ScanB
    case ScanB => PrepareTarget
    case Invalidate => VerifyInvalidate
    case VerifyInvalidate => CheckInvalidate
    case Commit => VerifyCommit
    case VerifyCommit => CheckCommit
    case RestoreScanA => RestoreScanB
    case RestoreScanB => RestoreDecode
    case _ => s
  }

  function Advance(s: Service): int {
    AdvanceOf(s.state, s.slotSize, s.writeOffset)
  }

  function AdvanceOf(state: State, size: nat, offset: nat): int {
    if state == WriteBody || state == ReadbackBody then ChunkOf(size, offset) else 0
  }

  /** The commit byte is staged in io_byte just before it is written. */
  function WithIoByte(s: Service): Service {
    if s.state == Invalidate then s.(ioByte := COMMIT_INVALID)
    else if s.state == Commit then s.(ioByte := COMMIT_VALID)
    else s
  }

  /** The work of the states that need no I/O. */
  function InternalStep(s: Service): Service
    requires Shape(s)
  {
    match s.state
    case PrepareTarget => ChooseTargetSlot(s)
    case CheckInvalidate =>
      if s.ioByte == COMMIT_VALID then FinishCommit(s, CommitVerifyError)
      else s.(writeOffset := 0, state := WriteBody)
    case WriteBody => s.(writeOffset := 0, state := ReadbackBody)
    case ReadbackBody => s.(state := VerifyBody)
    case VerifyBody =>
      if s.active.buffer[..BodySize(s)] != s.readback[..BodySize(s)] then FinishCommit(s, CommitVerifyError)
      else s.(state := Commit)
    case CheckCommit => FinishCommit(s, if s.ioByte != COMMIT_VALID then CommitVerifyError else CommitOk)
    case RestoreDecode => DecodeRestore(s)
    case _ => s
  }

  predicate MayPromote(s: Service) {
    (s.state == Complete || s.state == Failed) && s.pending.Some? && !s.completionReady
  }

  /** StorageService_Tick: one completion consumed, one operation submitted, or one step without I/O. */
  function Tick(s: Service, now: uint64, accepted: bool): (Service, Option<Request>)
    requires Shape(s)
  {
    if s.io.pending then (ConsumeIoCompletion(s), None)
    else if MayPromote(s) then (PromotePending(s), None)
    else
      match Expected(s)
      case Some(request) =>
        if Advance(s) < 0 then (s, None)
        else SubmitIo(WithIoByte(s), request, SuccessState(s.state), Advance(s), now, accepted)
      case None => (InternalStep(s), None)
  }

  function TakeCompletion(s: Service): (Service, Option<Completion>) {
    if !s.completionReady then (s, None) else (s.(completionReady := false), Some(s.lastCompletion))
  }

  function StartRestoreVolume(s: Service): (Service, Status) {
    if !IsTerminal(s.state) || s.pending.Some? || s.completionReady then (s, StatusBusy)
    else (s.(scanA := Blank96(), scanB := Blank96(), restored := Restored(NO_VOLUME, 0, NoSlot, ValidCompatible, ValidCompatible),
             writeOffset := 0, restoreReady := false, state := RestoreScanA), StatusOk)
  }

  function TakeRestoredVolume(s: Service): (Service, Option<(RestoreStatus, Restored)>) {
    if !s.restoreReady then (s, None)
    else (s.(restoreReady := false, state := Idle), Some((s.restoreStatus, s.restored)))
  }

  /** Where the bytes of the read in flight land, before its completion is reported. */
  function Receive(s: Service, bytes: seq<uint8>): Service
    requires Buffers(s)
  {
    match s.state
    case ScanA | RestoreScanA => s.(scanA := Overlaid(s.scanA, 0, bytes))
    case ScanB | RestoreScanB => s.(scanB := Overlaid(s.scanB, 0, bytes))
    case VerifyInvalidate | VerifyCommit => if bytes == [] then s else s.(ioByte := bytes[0])
    case ReadbackBody => s.(readback := Overlaid(s.readback, s.writeOffset, bytes))
    case _ => s
  }

  function Overlaid(buffer: Slot, at: nat, bytes: seq<uint8>): (r: Slot)
    ensures |r| == |buffer|
  {
    if at + |bytes| <= |buffer| then Spliced(buffer, at, bytes) else buffer
  }
}
