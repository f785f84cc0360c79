/** The storage service over its media: every run of checkpoints, failures, power losses and restores. */
module StorageSafety {
  import opened Bits
  import opened LittleEndian
  import opened StorageRecord
  import opened AbSlot
  import opened StoragePort
  import opened StorageService

  const MEDIA_SIZE: nat := 512

  /** A volume record that was submitted. */
  datatype Entry = Entry(sequence: uint32, volume: Volume)

  /** Service, media and the operation in flight; and, for the statements only, the log of volume records submitted,
      which of them are being committed or waiting, and the last one acknowledged. */
  datatype World = World(
    service: Service, media: Media, flight: Option<Request>,
    log: seq<Entry>, activeId: nat, pendingId: nat, acked: Option<nat>)

  datatype Event =
    | Submit(kind: uint8, sequence: uint32, encoded: Slot, version: uint64, volume: Volume)
    | Turn(now: uint64, accepted: bool)
    | IoDone(result: IoResult, transferred: nat, after: Media, received: seq<uint8>)
    | StrayCompletion(completion: IoCompletion)
    | TakeCommit
    | StartRestore
    | TakeRestore
    | PowerLoss(left: Media)

  function SlotAt(m: Media, slot: SlotIndex): Slot
    requires |m| == MEDIA_SIZE
  {
    if slot == SlotB then m[0x180..0x1C0] else m[0x140..0x180]
  }

  function Choice(m: Media): Selection
    requires |m| == MEDIA_SIZE
  {
    SelectVolume(SlotAt(m, SlotA), SlotAt(m, SlotB))
  }

  function Record(e: Entry): Slot {
    VolumeSlot(e.sequence, e.volume, COMMIT_VALID)
  }

  predicate IsCommit(s: Service) {
    !IsTerminal(s.state) && !IsRestore(s.state)
  }

  predicate IsVolumeCommit(s: Service) {
    IsCommit(s) && s.active.kind == TYPE_VOLUME
  }

  /** The sequence is ahead of every record on media, as its caller must arrange. */
  ghost predicate AheadOfMedia(sequence: uint32, m: Media)
    requires |m| == MEDIA_SIZE
  {
    && (ValidVolumeSlot(SlotAt(m, SlotA)) ==> Newer(sequence, Read32(SlotAt(m, SlotA), 8)))
    && (ValidVolumeSlot(SlotAt(m, SlotB)) ==> Newer(sequence, Read32(SlotAt(m, SlotB), 8)))
  }

  // ---------- What the environment may do ----------

  function Reported(w: World, e: Event): IoCompletion
    requires e.IoDone? && w.flight.Some?
  {
    IoCompletion(w.service.io.token, e.result, w.flight.value.Length(), e.transferred)
  }

  ghost predicate Enabled(w: World, e: Event)
    requires |w.media| == MEDIA_SIZE
  {
    match e
    case Submit(kind, sequence, encoded, version, volume) =>
      kind == TYPE_VOLUME ==>
        && volume.RemaindersInRange() && encoded == VolumeSlot(sequence, volume, COMMIT_INVALID)
        && AheadOfMedia(sequence, w.media)
        && (IsVolumeCommit(w.service) ==> Newer(sequence, w.service.active.sequence))
    case IoDone(result, transferred, after, received) =>
      w.flight.Some? && Effect(w.flight.value, Reported(w, e), w.media, after, received)
    case StrayCompletion(completion) => !Matches(w.service, completion)
    case PowerLoss(left) =>
      (match w.flight
       case Some(Write(offset, data)) => MaybeWritten(w.media, left, offset, data)
       case _ => left == w.media)
    case _ => true
  }

  // ---------- Steps ----------

  function Next(w: World, e: Event): World
    requires Shape(w.service)
  {
    var s := w.service;
    match e
    case Submit(kind, sequence, encoded, version, volume) =>
      var (t, status) := SubmitCheckpoint(s, kind, sequence, encoded, version);
      var u := w.(service := t);
      if kind != TYPE_VOLUME then u
      else if status == StatusOk then u.(log := w.log + [Entry(sequence, volume)], activeId := |w.log|)
      else if status == StatusBusy && !IsTerminal(s.state) then
        u.(log := w.log + [Entry(sequence, volume)], pendingId := |w.log|)
      else u
    case Turn(now, accepted) =>
      var (t, request) := Tick(s, now, accepted);
      var u := w.(service := t, flight := if request.Some? then request else w.flight);
      if s.pending.Some? && t.pending.None? then u.(activeId := w.pendingId)
      else if IsVolumeCommit(s) && t.state == Complete then u.(acked := Some(w.activeId))
      else u
    case IoDone(result, transferred, after, received) =>
      if w.flight.None? then w
      else w.(service := OnIoCompletion(Receive(s, received), Reported(w, e)), media := after, flight := None)
    case StrayCompletion(completion) => w.(service := OnIoCompletion(s, completion))
    case TakeCommit => w.(service := TakeCompletion(s).0)
    case StartRestore => w.(service := StartRestoreVolume(s).0)
    case TakeRestore => w.(service := TakeRestoredVolume(s).0)
    case PowerLoss(left) =>
      w.(service := InitialService(s.ioTimeoutUs), media := left, flight := None)
  }

  // ---------- The invariant ----------

  ghost predicate IsCandidate(c: Candidate, e: Entry) {
    && c.kind == TYPE_VOLUME && c.sequence == e.sequence && c.length == VOLUME_SLOT_SIZE
    && |c.buffer| == MAX_SLOT_SIZE && c.buffer[..VOLUME_SLOT_SIZE] == VolumeSlot(e.sequence, e.volume, COMMIT_INVALID)
    && e.volume.RemaindersInRange()
  }

  /** The media's newest record is log[i] for some i >= k, complete and byte-exact. */
  ghost predicate Durable(m: Media, log: seq<Entry>, k: nat)
    requires |m| == MEDIA_SIZE
  {
    && Choice(m).status == Selected
    && exists i :: k <= i < |log| && SlotAt(m, Choice(m).selected) == Record(log[i])
  }

  ghost predicate SlotIsOlder(slot: Slot, e: Entry) {
    ValidVolumeSlot(slot) ==> slot == Record(e) || Newer(e.sequence, Read32(slot, 8))
  }

  /** Every valid slot holds this record or an older one. */
  ghost predicate NewestIs(m: Media, e: Entry)
    requires |m| == MEDIA_SIZE
  {
    SlotIsOlder(SlotAt(m, SlotA), e) && SlotIsOlder(SlotAt(m, SlotB), e)
  }

  ghost predicate AckedBefore(acked: Option<nat>, id: nat) {
    acked.Some? ==> acked.value < id
  }

  ghost predicate ActiveOk(w: World)
    requires |w.media| == MEDIA_SIZE
  {
    IsVolumeCommit(w.service) ==>
      && w.activeId < |w.log| && AckedBefore(w.acked, w.activeId)
      && IsCandidate(w.service.active, w.log[w.activeId])
      && NewestIs(w.media, w.log[w.activeId])
  }

  ghost predicate PendingOk(w: World)
    requires |w.media| == MEDIA_SIZE
  {
    w.service.pending.Some? && w.service.pending.value.kind == TYPE_VOLUME ==>
      && w.pendingId < |w.log| && AckedBefore(w.acked, w.pendingId)
      && IsCandidate(w.service.pending.value, w.log[w.pendingId])
      && AheadOfMedia(w.log[w.pendingId].sequence, w.media)
      && (IsVolumeCommit(w.service) ==>
            w.activeId < w.pendingId && Newer(w.log[w.pendingId].sequence, w.service.active.sequence))
  }

  predicate HasTarget(s: State) {
    || s == Invalidate || s == VerifyInvalidate || s == CheckInvalidate || s == WriteBody || s == ReadbackBody
    || s == VerifyBody || s == Commit || s == VerifyCommit || s == CheckCommit
  }

  /** The target chosen, and the body offset within the body. */
  predicate TargetOk(s: Service) {
    && (HasTarget(s.state) ==> s.targetSlot != NoSlot && s.targetAddress == SlotAddress(s.targetSlot, s.active.kind))
    && (s.state == WriteBody || s.state == ReadbackBody ==> s.writeOffset <= BodySize(s))
  }

  /** A result waits only while its operation is over: no step can overwrite it before it is taken. */
  predicate ReadyOk(s: Service) {
    && (s.completionReady ==> s.state == Complete || s.state == Failed)
    && (s.restoreReady <==> s.state == RestoreComplete || s.state == RestoreFailed)
  }

  /** What is in flight is what the state submitted, and its completion will be taken as such. */
  ghost predicate FlightOk(s: Service, flight: Option<Request>)
    requires Shape(s)
  {
    && (flight.Some? <==> s.io.pending && !s.io.completed)
    && (flight.Some? ==> flight == Expected(s))
    && (s.io.completed ==> s.io.pending)
    && (s.io.pending ==> && Expected(s).Some? && s.io.successState == SuccessState(s.state) && s.io.advance == Advance(s)
                         && s.io.completion.requestedLength == (if s.io.completed then Expected(s).value.Length() else s.io.completion.requestedLength))
    && (s.io.pending ==> s.io.token.ownerGeneration == s.generation)
  }

  // ---------- What each state knows about the media ----------

  /** The target is not the slot that a restore would select now. */
  ghost predicate Expendable(target: SlotIndex, m: Media)
    requires |m| == MEDIA_SIZE
  {
    Choice(m).status != SequenceConflict && Choice(m).selected != target
  }

  ghost predicate VolumePhase(s: Service, m: Media)
    requires |m| == MEDIA_SIZE && Buffers(s)
  {
    var body := s.active.buffer[..63];
    match s.state
    case ScanB => s.scanA[..64] == SlotAt(m, SlotA)
    case PrepareTarget => s.scanA[..64] == SlotAt(m, SlotA) && s.scanB[..64] == SlotAt(m, SlotB)
    case Invalidate | VerifyInvalidate => Expendable(s.targetSlot, m)
    case CheckInvalidate => Expendable(s.targetSlot, m) && s.ioByte == SlotAt(m, s.targetSlot)[63]
    case WriteBody => Expendable(s.targetSlot, m) && SlotAt(m, s.targetSlot)[63] != COMMIT_VALID
    case ReadbackBody =>
      && Expendable(s.targetSlot, m) && SlotAt(m, s.targetSlot)[63] != COMMIT_VALID
      && s.writeOffset <= 63 && s.readback[..s.writeOffset] == SlotAt(m, s.targetSlot)[..s.writeOffset]
    case VerifyBody => Expendable(s.targetSlot, m) && SlotAt(m, s.targetSlot)[63] != COMMIT_VALID && s.readback[..63] == SlotAt(m, s.targetSlot)[..63]
    case Commit => Expendable(s.targetSlot, m) && SlotAt(m, s.targetSlot)[63] != COMMIT_VALID && SlotAt(m, s.targetSlot)[..63] == body
    case VerifyCommit => SlotAt(m, s.targetSlot)[..63] == body
    case CheckCommit => SlotAt(m, s.targetSlot)[..63] == body && s.ioByte == SlotAt(m, s.targetSlot)[63]
    case _ => true
  }

  ghost predicate RestorePhase(s: Service, m: Media)
    requires |m| == MEDIA_SIZE && Buffers(s)
  {
    match s.state
    case RestoreScanB => s.scanA[..64] == SlotAt(m, SlotA)
    case RestoreDecode => s.scanA[..64] == SlotAt(m, SlotA) && s.scanB[..64] == SlotAt(m, SlotB)
    case RestoreComplete => (s.restoreStatus, s.restored) == RestoreOutcome(SlotAt(m, SlotA), SlotAt(m, SlotB))
    case RestoreFailed => s.restoreStatus == RestoreIoError
    case _ => true
  }

  ghost predicate Phase(s: Service, m: Media)
    requires |m| == MEDIA_SIZE && Buffers(s)
  {
    TargetOk(s) && RestorePhase(s, m) && (IsVolumeCommit(s) ==> VolumePhase(s, m))
  }

  predicate IoFailed(s: Service) {
    s.io.pending && s.io.completed && !IsComplete(s.io.completion)
  }

  /** The service as it will be once a completed operation is consumed. */
  function Logical(s: Service): Service {
    if s.io.pending && s.io.completed && IsComplete(s.io.completion) then
      s.(io := s.io.(pending := false, completed := false),
         writeOffset := (s.writeOffset + s.io.advance) % 0x1_0000, state := s.io.successState)
    else s
  }

  /** The part of the invariant that does not mention the log. */
  ghost predicate CoreInv(s: Service, m: Media, flight: Option<Request>) {
    && |m| == MEDIA_SIZE && Shape(s) && TargetOk(s) && ReadyOk(s) && FlightOk(s, flight)
    && Buffers(Logical(s))
    && (!IoFailed(s) ==> Phase(Logical(s), m))
  }

  ghost predicate Inv(w: World) {
    && CoreInv(w.service, w.media, w.flight)
    && ActiveOk(w) && PendingOk(w)
    && (w.acked.Some? ==> Durable(w.media, w.log, w.acked.value))
  }

  /** A freshly initialised service over any media. */
  ghost predicate Start(w: World) {
    && |w.media| == MEDIA_SIZE && w.service == InitialService(w.service.ioTimeoutUs)
    && w.flight == None && w.log == [] && w.acked == None
  }

  /** A restarted service needs nothing but the media's promise. */
  lemma RestartHolds(w: World)
    requires |w.media| == MEDIA_SIZE && w.service == InitialService(w.service.ioTimeoutUs) && w.flight == None
    requires w.acked.Some? ==> Durable(w.media, w.log, w.acked.value)
    ensures Inv(w)
  {
    hide Durable, NewestIs, AheadOfMedia, Zeros;
  }

  // ---------- What a write can do to the slots ----------

  /** The target slot is unchanged, or not a valid record, or exactly the record being committed. */
  ghost predicate Outcome(before: Slot, after: Slot, e: Entry) {
    after == before || !ValidVolumeSlot(after) || after == Record(e)
  }

  ghost predicate SlotsStep(m: Media, m': Media, target: SlotIndex, e: Entry)
    requires |m| == MEDIA_SIZE == |m'|
  {
    && target != NoSlot
    && SlotAt(m', Other(target)) == SlotAt(m, Other(target))
    && Outcome(SlotAt(m, target), SlotAt(m', target), e)
  }

  lemma RecordIsValid(e: Entry)
    requires e.volume.RemaindersInRange()
    ensures |Record(e)| == VOLUME_SLOT_SIZE && ValidVolumeSlot(Record(e)) && Read32(Record(e), 8) == e.sequence
    ensures Decode(Record(e)) == Some(e.volume)
  {
    RoundTrip(e.sequence, e.volume);
  }

  lemma SlotsKeepAhead(m: Media, m': Media, target: SlotIndex, e: Entry, sequence: uint32)
    requires |m| == MEDIA_SIZE == |m'| && SlotsStep(m, m', target, e) && e.volume.RemaindersInRange()
    requires AheadOfMedia(sequence, m) && Newer(sequence, e.sequence)
    ensures AheadOfMedia(sequence, m')
  {
    RecordIsValid(e);
    hide Classify, Record;
  }

  lemma SlotsKeepNewest(m: Media, m': Media, target: SlotIndex, e: Entry)
    requires |m| == MEDIA_SIZE == |m'| && SlotsStep(m, m', target, e)
    requires NewestIs(m, e)
    ensures NewestIs(m', e)
  {
    hide Classify, Record;
  }

  /** Once the record is in place it is the one selected. */
  lemma RecordInPlace(m: Media, target: SlotIndex, log: seq<Entry>, id: nat)
    requires |m| == MEDIA_SIZE && target != NoSlot && id < |log| && log[id].volume.RemaindersInRange()
    requires SlotAt(m, target) == Record(log[id]) && NewestIs(m, log[id])
    ensures Durable(m, log, id)
  {
    hide Classify, Select, Record, Read32, ValidVolumeSlot;
    var e := log[id];
    RecordIsValid(e);
    CommittedIsSelectedIff(target, Record(e), SlotAt(m, Other(target)));
    SelectedIffSome(SlotAt(m, SlotA), SlotAt(m, SlotB));
    assert SlotIsOlder(SlotAt(m, Other(target)), e);
    if Choice(m).selected != target {
      assert target == SlotB && SlotAt(m, SlotA) == Record(e);
      CommittedIsSelectedIff(SlotA, Record(e), Record(e));
    }
    assert SlotAt(m, Choice(m).selected) == Record(log[id]);
  }

  /** A slot that is not selected may become invalid without changing the selection. */
  lemma UnselectedIsExpendable(m: Media, m': Media, target: SlotIndex)
    requires |m| == MEDIA_SIZE == |m'| && target != NoSlot
    requires SlotAt(m', Other(target)) == SlotAt(m, Other(target))
    requires SlotAt(m', target) == SlotAt(m, target) || !ValidVolumeSlot(SlotAt(m', target))
    requires Choice(m).selected != target && Choice(m).status != SequenceConflict
    ensures Choice(m').selected == Choice(m).selected && Choice(m').status == Choice(m).status
  {
    hide Classify, Read32;
  }

  lemma SlotsKeepDurable(m: Media, m': Media, target: SlotIndex, log: seq<Entry>, k: nat, id: nat)
    requires |m| == MEDIA_SIZE == |m'| && id < |log| && SlotsStep(m, m', target, log[id])
    requires k <= id && log[id].volume.RemaindersInRange() && NewestIs(m, log[id])
    requires Choice(m).selected != target
    requires Durable(m, log, k)
    ensures Durable(m', log, k)
  {
    hide Classify, Select, Record, Read32, ValidVolumeSlot;
    if SlotAt(m', target) == Record(log[id]) {
      SlotsKeepNewest(m, m', target, log[id]);
      RecordInPlace(m', target, log, id);
    } else {
      SelectedIffSome(SlotAt(m, SlotA), SlotAt(m, SlotB));
      UnselectedIsExpendable(m, m', target);
      var i :| k <= i < |log| && SlotAt(m, Choice(m).selected) == Record(log[i]);
      assert SlotAt(m', Choice(m').selected) == Record(log[i]);
    }
  }

  lemma SameSlots(m: Media, m': Media)
    requires |m| == MEDIA_SIZE == |m'| && m[0x140..0x1C0] == m'[0x140..0x1C0]
    ensures SlotAt(m, SlotA) == SlotAt(m', SlotA) && SlotAt(m, SlotB) == SlotAt(m', SlotB)
  {
    assert forall i :: 0x140 <= i < 0x1C0 ==> m[i] == m[0x140..0x1C0][i - 0x140] && m'[i] == m'[0x140..0x1C0][i - 0x140];
  }

  /** A write that stays within the body of the target slot, or touches only its last byte. */
  lemma WriteStaysInSlot(m: Media, m': Media, target: SlotIndex, from: nat, data: seq<uint8>)
    requires |m| == MEDIA_SIZE && target != NoSlot && from + |data| <= 64
    requires MaybeWritten(m, m', SlotAddress(target, TYPE_VOLUME) + from, data)
    ensures |m'| == MEDIA_SIZE && SlotAt(m', Other(target)) == SlotAt(m, Other(target))
    ensures MaybeWritten(SlotAt(m, target), SlotAt(m', target), from, data)
  {
  }

  /** A torn write of the last byte, and a torn write that leaves the last byte alone. */
  lemma TornCommitByte(before: Slot, after: Slot, b: uint8)
    requires |before| == 64 && MaybeWritten(before, after, 63, [b])
    ensures after == before || (after[..63] == before[..63] && after[63] == b)
  {
    assert after[..63] == before[..63];
    assert after == after[..63] + [after[63]] && before == before[..63] + [before[63]];
  }

  lemma InvalidateOutcome(s: Service, e: Entry, m: Media, m': Media, offset: nat, data: seq<uint8>)
    requires s.state == Invalidate
    requires |m| == MEDIA_SIZE && Shape(s) && TargetOk(s) && IsVolumeCommit(s) && VolumePhase(s, m)
    requires IsCandidate(s.active, e)
    requires Expected(s) == Some(Write(offset, data)) && MaybeWritten(m, m', offset, data)
    ensures s.targetSlot != NoSlot && Expendable(s.targetSlot, m) && SlotsStep(m, m', s.targetSlot, e)
  {
    hide Classify, Select, Read32, ValidVolumeSlot, Record, Choice, MaybeWritten, Padded, Expendable, VolumeSlot;
    WriteStaysInSlot(m, m', s.targetSlot, 63, data);
    var before, after := SlotAt(m, s.targetSlot), SlotAt(m', s.targetSlot);
    TornCommitByte(before, after, COMMIT_INVALID);
    if after != before {
      UncommittedNotValid(after);
    }
  }

  lemma BodyOutcome(s: Service, e: Entry, m: Media, m': Media, offset: nat, data: seq<uint8>)
    requires s.state == WriteBody
    requires |m| == MEDIA_SIZE && Shape(s) && TargetOk(s) && IsVolumeCommit(s) && VolumePhase(s, m)
    requires IsCandidate(s.active, e)
    requires Expected(s) == Some(Write(offset, data)) && MaybeWritten(m, m', offset, data)
    ensures s.targetSlot != NoSlot && Expendable(s.targetSlot, m) && SlotsStep(m, m', s.targetSlot, e)
  {
    hide Classify, Select, Read32, ValidVolumeSlot, Record, Choice, MaybeWritten, Padded, Expendable, VolumeSlot;
    WriteStaysInSlot(m, m', s.targetSlot, s.writeOffset, data);
    var before, after := SlotAt(m, s.targetSlot), SlotAt(m', s.targetSlot);
    KeepsCommitByte(before, after, s.writeOffset, data);
    UncommittedNotValid(after);
  }

  lemma CommitOutcome(s: Service, e: Entry, m: Media, m': Media, offset: nat, data: seq<uint8>)
    requires s.state == Commit
    requires |m| == MEDIA_SIZE && Shape(s) && TargetOk(s) && IsVolumeCommit(s) && VolumePhase(s, m)
    requires IsCandidate(s.active, e)
    requires Expected(s) == Some(Write(offset, data)) && MaybeWritten(m, m', offset, data)
    ensures s.targetSlot != NoSlot && Expendable(s.targetSlot, m) && SlotsStep(m, m', s.targetSlot, e)
  {
    hide Classify, Select, Read32, ValidVolumeSlot, Record, Choice, MaybeWritten, Padded, Expendable, VolumeSlot;
    WriteStaysInSlot(m, m', s.targetSlot, 63, data);
    var before, after := SlotAt(m, s.targetSlot), SlotAt(m', s.targetSlot);
    TornCommitByte(before, after, COMMIT_VALID);
    if after != before {
      CommittedBody(after, e, s.active.buffer);
    }
  }

  /** The write a volume commit has in flight changes only its target slot, and only as intended. */
  lemma WriteOutcome(s: Service, e: Entry, m: Media, m': Media, offset: nat, data: seq<uint8>)
    requires |m| == MEDIA_SIZE && Shape(s) && TargetOk(s) && IsVolumeCommit(s) && VolumePhase(s, m)
    requires IsCandidate(s.active, e)
    requires Expected(s) == Some(Write(offset, data)) && MaybeWritten(m, m', offset, data)
    ensures s.targetSlot != NoSlot && Expendable(s.targetSlot, m) && SlotsStep(m, m', s.targetSlot, e)
  {
    hide VolumePhase, TargetOk, MaybeWritten, SlotsStep, Expendable, IsCandidate;
    match s.state
    case Invalidate => InvalidateOutcome(s, e, m, m', offset, data);
    case WriteBody => BodyOutcome(s, e, m, m', offset, data);
    case Commit => CommitOutcome(s, e, m, m', offset, data);
    case _ =>
  }

  lemma KeepsCommitByte(before: Slot, after: Slot, from: nat, data: seq<uint8>)
    requires |before| == 64 && from + |data| <= 63 && MaybeWritten(before, after, from, data)
    ensures after[63] == before[63]
  {
  }

  lemma UncommittedNotValid(s: Slot)
    requires |s| == 64 && s[63] != COMMIT_VALID
    ensures !ValidVolumeSlot(s)
  {
    UncommittedIsInvalid(s);
  }

  lemma CommittedBody(s: Slot, e: Entry, buffer: Slot)
    requires |s| == 64 && |buffer| == MAX_SLOT_SIZE
    requires buffer[..64] == VolumeSlot(e.sequence, e.volume, COMMIT_INVALID)
    requires s[..63] == buffer[..63] && s[63] == COMMIT_VALID
    ensures s == Record(e)
  {
    hide VolumeBody;
    assert buffer[..63] == buffer[..64][..63];
    assert s == s[..63] + [s[63]];
  }

  /** What the media must keep for the log, whatever happens to the service. */
  ghost predicate MediaOk(w: World, m: Media) {
    && |m| == MEDIA_SIZE
    && (w.acked.Some? ==> Durable(m, w.log, w.acked.value))
    && ActiveOk(w.(media := m)) && PendingOk(w.(media := m))
  }

  lemma SameSlotsKeep(w: World, m: Media)
    requires Inv(w) && |m| == MEDIA_SIZE
    requires SlotAt(m, SlotA) == SlotAt(w.media, SlotA) && SlotAt(m, SlotB) == SlotAt(w.media, SlotB)
    ensures MediaOk(w, m)
  {
    hide Classify, Select, Read32, ValidVolumeSlot, Record, Phase;
    if w.acked.Some? {
      var k := w.acked.value;
      var i :| k <= i < |w.log| && SlotAt(w.media, Choice(w.media).selected) == Record(w.log[i]);
      assert SlotAt(m, Choice(m).selected) == Record(w.log[i]);
    }
  }

  lemma VolumeWriteKeeps(w: World, m: Media, offset: nat, data: seq<uint8>)
    requires Inv(w) && w.flight == Some(Write(offset, data)) && MaybeWritten(w.media, m, offset, data)
    requires IsVolumeCommit(w.service)
    ensures MediaOk(w, m)
  {
    InvMedia(w);
    ActiveIsLogged(w);
    FlightFacts(w.service, w.media, w.flight);
    hide Inv, CoreInv, MediaOk, VolumePhase, RestorePhase, MaybeWritten, IsCandidate, Expected, TargetOk, IsVolumeCommit, SlotsStep, Choice;
    WriteOutcome(w.service, w.log[w.activeId], w.media, m, offset, data);
    SlotsStepKeeps(w, m);
  }

  lemma SlotsStepKeeps(w: World, m: Media)
    requires |w.media| == MEDIA_SIZE == |m| && MediaOk(w, w.media)
    requires IsVolumeCommit(w.service) && w.activeId < |w.log| && IsCandidate(w.service.active, w.log[w.activeId])
    requires SlotsStep(w.media, m, w.service.targetSlot, w.log[w.activeId]) && Choice(w.media).selected != w.service.targetSlot
    ensures MediaOk(w, m)
  {
    hide Record, NewestIs, AheadOfMedia, Durable, SlotsStep, Choice, Newer, IsVolumeCommit, VolumeSlot;
    var s, e := w.service, w.log[w.activeId];
    SlotsKeepNewest(w.media, m, s.targetSlot, e);
    assert ActiveOk(w.(media := m));
    if w.acked.Some? {
      SlotsKeepDurable(w.media, m, s.targetSlot, w.log, w.acked.value, w.activeId);
    }
    hide ActiveOk;
    if s.pending.Some? && s.pending.value.kind == TYPE_VOLUME {
      SlotsKeepAhead(w.media, m, s.targetSlot, e, w.log[w.pendingId].sequence);
    }
  }

  lemma OtherWriteKeeps(w: World, m: Media, offset: nat, data: seq<uint8>)
    requires Inv(w) && w.flight == Some(Write(offset, data)) && MaybeWritten(w.media, m, offset, data)
    requires !IsVolumeCommit(w.service)
    ensures MediaOk(w, m)
  {
    WriteBelowVolumes(w.service, w.media, w.flight);
    hide *;
    KeptAbove(w.media, m, offset, data);
    SameSlots(w.media, m);
    SameSlotsKeep(w, m);
  }

  lemma WriteBelowVolumes(s: Service, m: Media, flight: Option<Request>)
    requires CoreInv(s, m, flight) && flight.Some? && flight.value.Write? && !IsVolumeCommit(s)
    ensures |m| == MEDIA_SIZE && flight.value.offset + |flight.value.data| <= 0x140
  {
    FlightFacts(s, m, flight);
    hide CoreInv, Phase;
  }

  lemma KeptAbove(m: Media, m': Media, offset: nat, data: seq<uint8>)
    requires |m| == MEDIA_SIZE && MaybeWritten(m, m', offset, data) && offset + |data| <= 0x140
    ensures |m'| == MEDIA_SIZE && m[0x140..0x1C0] == m'[0x140..0x1C0]
  {
    assert forall k :: 0x140 <= k < 0x1C0 ==> m[k] == m'[k];
  }

  /** Whatever part of the write in flight reaches the media, nothing acknowledged is lost. */
  lemma TornWriteKeeps(w: World, m: Media)
    requires Inv(w)
    requires match w.flight
             case Some(Write(offset, data)) => MaybeWritten(w.media, m, offset, data)
             case _ => m == w.media
    ensures MediaOk(w, m)
  {
    hide MaybeWritten, Inv;
    match w.flight
    case Some(Write(offset, data)) =>
      if IsVolumeCommit(w.service) {
        VolumeWriteKeeps(w, m, offset, data);
      } else {
        OtherWriteKeeps(w, m, offset, data);
      }
    case _ =>
      InvMedia(w);
  }

  lemma InvMedia(w: World)
    requires Inv(w)
    ensures MediaOk(w, w.media)
  {
    hide Durable, ActiveOk, PendingOk;
    assert w.(media := w.media) == w;
  }

  lemma PowerLossStep(w: World, left: Media)
    requires Inv(w) && Enabled(w, PowerLoss(left))
    ensures Inv(Next(w, PowerLoss(left)))
  {
    hide Tick, SubmitCheckpoint, OnIoCompletion, Receive, TakeCompletion, StartRestoreVolume, TakeRestoredVolume;
    TornWriteKeeps(w, left);
    hide Inv, Durable, NewestIs, AheadOfMedia, MaybeWritten, ActiveOk, PendingOk;
    RestartHolds(Next(w, PowerLoss(left)));
  }

  // ---------- A complete operation advances the phase ----------

  function Arrived(s: Service, received: seq<uint8>): Service
    requires Shape(s)
  {
    Receive(s, received).(state := SuccessState(s.state), writeOffset := (s.writeOffset + Advance(s)) % 0x1_0000)
  }

  ghost predicate CompleteEffect(r: Request, m: Media, m': Media, received: seq<uint8>) {
    match r
    case Read(offset, size) => m' == m && offset + size <= |m| && received == m[offset..offset + size]
    case Write(offset, data) => offset + |data| <= |m| && m' == Spliced(m, offset, data)
  }

  lemma ScanArrives(s: Service, m: Media, m': Media, received: seq<uint8>)
    requires s.state == ScanA || s.state == ScanB
    requires |m| == MEDIA_SIZE && Shape(s) && TargetOk(s) && IsVolumeCommit(s) && VolumePhase(s, m)
    requires Expected(s).Some? && CompleteEffect(Expected(s).value, m, m', received)
    ensures TargetOk(Arrived(s, received)) && VolumePhase(Arrived(s, received), m')
  {
    hide Classify, Select, Choice, VolumeSlot, Expendable, Padded;
  }

  lemma ByteArrives(s: Service, m: Media, m': Media, received: seq<uint8>)
    requires s.state == VerifyInvalidate || s.state == VerifyCommit
    requires |m| == MEDIA_SIZE && Shape(s) && TargetOk(s) && IsVolumeCommit(s) && VolumePhase(s, m)
    requires Expected(s).Some? && CompleteEffect(Expected(s).value, m, m', received)
    ensures TargetOk(Arrived(s, received)) && VolumePhase(Arrived(s, received), m')
  {
    hide Classify, Select, Choice, VolumeSlot, Expendable;
    assert received[0] == SlotAt(m, s.targetSlot)[63];
  }

  lemma ReadbackArrives(s: Service, m: Media, m': Media, received: seq<uint8>)
    requires s.state == ReadbackBody
    requires |m| == MEDIA_SIZE && Shape(s) && TargetOk(s) && IsVolumeCommit(s) && VolumePhase(s, m)
    requires Expected(s).Some? && CompleteEffect(Expected(s).value, m, m', received)
    ensures TargetOk(Arrived(s, received)) && VolumePhase(Arrived(s, received), m')
  {
    hide Classify, Select, Choice, VolumeSlot, Expendable;
    SlotSlice(m, s.targetSlot, s.writeOffset, |received|);
    hide SlotAt;
    ReadbackGrows(s.readback, SlotAt(m, s.targetSlot), s.writeOffset, received);
    hide Overlaid, SlotAddress;
  }

  lemma SlotSlice(m: Media, target: SlotIndex, from: nat, n: nat)
    requires |m| == MEDIA_SIZE && target != NoSlot && from + n <= 64
    ensures var at := SlotAddress(target, TYPE_VOLUME) + from;
      at + n <= |m| && m[at..at + n] == SlotAt(m, target)[from..from + n]
  {
    SubSlice(m, SlotAt(m, target), SlotAddress(target, TYPE_VOLUME), from, from + n);
  }

  lemma ReadbackGrows(readback: Slot, there: Slot, offset: nat, received: Slot)
    requires offset + |received| <= 63 && |readback| == MAX_SLOT_SIZE && |there| == 64
    requires readback[..offset] == there[..offset] && received == there[offset..offset + |received|]
    ensures Overlaid(readback, offset, received)[..offset + |received|] == there[..offset + |received|]
  {
    assert there[..offset + |received|] == there[..offset] + received;
  }

  lemma InvalidateArrives(s: Service, m: Media, m': Media, received: seq<uint8>)
    requires s.state == Invalidate
    requires |m| == MEDIA_SIZE && Shape(s) && TargetOk(s) && IsVolumeCommit(s) && VolumePhase(s, m)
    requires Expected(s).Some? && CompleteEffect(Expected(s).value, m, m', received)
    ensures TargetOk(Arrived(s, received)) && VolumePhase(Arrived(s, received), m')
  {
    hide Classify, Select, VolumeSlot, ValidVolumeSlot, Choice, Padded, Spliced, Expendable;
    SplicedSlot(m, m', s.targetSlot, 63, [COMMIT_INVALID]);
    SplicedByte(SlotAt(m, s.targetSlot), COMMIT_INVALID);
    StaysExpendable(m, m', s.targetSlot);
  }

  lemma BodyArrives(s: Service, m: Media, m': Media, received: seq<uint8>)
    requires s.state == WriteBody
    requires |m| == MEDIA_SIZE && Shape(s) && TargetOk(s) && IsVolumeCommit(s) && VolumePhase(s, m)
    requires Expected(s).Some? && CompleteEffect(Expected(s).value, m, m', received)
    ensures TargetOk(Arrived(s, received)) && VolumePhase(Arrived(s, received), m')
  {
    hide Classify, Select, VolumeSlot, ValidVolumeSlot, Choice, Padded, Spliced, Expendable;
    var data := Expected(s).value.data;
    SplicedSlot(m, m', s.targetSlot, s.writeOffset, data);
    SplicedKeeps(SlotAt(m, s.targetSlot), s.writeOffset, data);
    StaysExpendable(m, m', s.targetSlot);
  }

  lemma CommitArrives(s: Service, m: Media, m': Media, received: seq<uint8>)
    requires s.state == Commit
    requires |m| == MEDIA_SIZE && Shape(s) && TargetOk(s) && IsVolumeCommit(s) && VolumePhase(s, m)
    requires Expected(s).Some? && CompleteEffect(Expected(s).value, m, m', received)
    ensures TargetOk(Arrived(s, received)) && VolumePhase(Arrived(s, received), m')
  {
    hide Classify, Select, VolumeSlot, ValidVolumeSlot, Choice, Padded, Spliced, Expendable;
    SplicedSlot(m, m', s.targetSlot, 63, [COMMIT_VALID]);
    SplicedByte(SlotAt(m, s.targetSlot), COMMIT_VALID);
  }

  lemma SplicedByte(slot: Slot, b: uint8)
    requires |slot| == 64
    ensures Spliced(slot, 63, [b])[..63] == slot[..63] && Spliced(slot, 63, [b])[63] == b
  {
  }

  lemma SplicedKeeps(slot: Slot, from: nat, data: seq<uint8>)
    requires |slot| == 64 && from + |data| <= 63
    ensures Spliced(slot, from, data)[63] == slot[63]
  {
  }

  lemma StaysExpendable(m: Media, m': Media, target: SlotIndex)
    requires |m| == MEDIA_SIZE == |m'| && target != NoSlot && Expendable(target, m)
    requires SlotAt(m', Other(target)) == SlotAt(m, Other(target))
    requires SlotAt(m', target)[63] != COMMIT_VALID
    ensures Expendable(target, m')
  {
    UncommittedNotValid(SlotAt(m', target));
    UnselectedIsExpendable(m, m', target);
  }

  lemma SplicedSlot(m: Media, m': Media, target: SlotIndex, from: nat, data: seq<uint8>)
    requires |m| == MEDIA_SIZE && target != NoSlot && from + |data| <= 64
    requires m' == Spliced(m, SlotAddress(target, TYPE_VOLUME) + from, data)
    ensures |m'| == MEDIA_SIZE && SlotAt(m', Other(target)) == SlotAt(m, Other(target))
    ensures SlotAt(m', target) == Spliced(SlotAt(m, target), from, data)
  {
    var (here, there) := (SlotAddress(target, TYPE_VOLUME), SlotAddress(Other(target), TYPE_VOLUME));
    SplicedWindow(m, here, 64, from, data);
    SplicedElsewhere(m, here + from, data, there, there + 64);
    hide Spliced;
  }

  /** Every complete operation of a volume commit leaves the next state knowing what it needs to. */
  lemma VolumeIoArrives(s: Service, m: Media, m': Media, received: seq<uint8>)
    requires |m| == MEDIA_SIZE && Shape(s) && TargetOk(s) && IsVolumeCommit(s) && VolumePhase(s, m)
    requires Expected(s).Some? && CompleteEffect(Expected(s).value, m, m', received)
    ensures TargetOk(Arrived(s, received)) && VolumePhase(Arrived(s, received), m')
  {
    hide VolumePhase, TargetOk, Arrived, CompleteEffect;
    match s.state
    case ScanA | ScanB => ScanArrives(s, m, m', received);
    case VerifyInvalidate | VerifyCommit => ByteArrives(s, m, m', received);
    case ReadbackBody => ReadbackArrives(s, m, m', received);
    case Invalidate => InvalidateArrives(s, m, m', received);
    case WriteBody => BodyArrives(s, m, m', received);
    case Commit => CommitArrives(s, m, m', received);
    case _ =>
  }

  lemma RestoreIoArrives(s: Service, m: Media, received: seq<uint8>)
    requires |m| == MEDIA_SIZE && Shape(s) && IsRestore(s.state) && RestorePhase(s, m)
    requires Expected(s).Some? && CompleteEffect(Expected(s).value, m, m, received)
    ensures RestorePhase(Arrived(s, received), m)
  {
    hide RestoreOutcome;
  }

  lemma OtherIoArrives(s: Service, received: seq<uint8>)
    requires Shape(s) && TargetOk(s) && Expected(s).Some?
    ensures TargetOk(Arrived(s, received))
  {
  }

  /** s and t agree on everything the phases mention. */
  predicate PhaseAgrees(s: Service, t: Service) {
    && s.state == t.state && s.active == t.active && s.slotSize == t.slotSize
    && s.scanA == t.scanA && s.scanB == t.scanB && s.readback == t.readback
    && s.targetSlot == t.targetSlot && s.targetAddress == t.targetAddress
    && s.writeOffset == t.writeOffset && s.ioByte == t.ioByte
    && s.restoreStatus == t.restoreStatus && s.restored == t.restored
  }

  lemma PhaseDependsOn(s: Service, t: Service, m: Media)
    requires |m| == MEDIA_SIZE && Buffers(s) && Buffers(t) && PhaseAgrees(s, t)
    ensures Phase(s, m) == Phase(t, m)
  {
    hide Expendable, Zeros, Classify, Select, Choice, RestoreOutcome, SlotAt;
  }

  lemma IoArrives(s: Service, m: Media, m': Media, received: seq<uint8>)
    requires |m| == MEDIA_SIZE && Shape(s) && Phase(s, m)
    requires Expected(s).Some? && CompleteEffect(Expected(s).value, m, m', received)
    ensures |m'| == MEDIA_SIZE && Buffers(Arrived(s, received)) && Phase(Arrived(s, received), m')
  {
    OtherIoArrives(s, received);
    if IsVolumeCommit(s) {
      VolumeIoArrives(s, m, m', received);
    } else if IsRestore(s.state) {
      RestoreIoArrives(s, m, received);
    }
    hide RestorePhase, VolumePhase, TargetOk, Classify, Select;
    ArrivedKind(s, received);
    if !IsRestore(s.state) {
      ArrivedNeither(s, received, m');
    }
  }

  lemma ArrivedKind(s: Service, received: seq<uint8>)
    requires Shape(s) && Expected(s).Some?
    ensures Buffers(Arrived(s, received))
    ensures IsCommit(Arrived(s, received)) == IsCommit(s)
    ensures Arrived(s, received).active == s.active
  {
    SuccessStaysCommit(s);
    ReceiveKeeps(s, received);
    hide Expected, Advance, SuccessState, Receive;
  }

  lemma SuccessStaysCommit(s: Service)
    requires Expected(s).Some?
    ensures (IsTerminal(s.state) || IsRestore(s.state)) == (IsTerminal(SuccessState(s.state)) || IsRestore(SuccessState(s.state)))
  {
  }

  /** Received bytes land in the buffers and nowhere else. */
  lemma ReceiveKeeps(s: Service, received: seq<uint8>)
    requires Buffers(s)
    ensures var t := Receive(s, received);
      Buffers(t) && t == s.(scanA := t.scanA, scanB := t.scanB, readback := t.readback, ioByte := t.ioByte)
  {
    hide Spliced, Zeros;
  }

  lemma ArrivedNeither(s: Service, received: seq<uint8>, m: Media)
    requires |m| == MEDIA_SIZE && Shape(s) && Expected(s).Some? && !IsRestore(s.state)
    ensures Buffers(Arrived(s, received)) && RestorePhase(Arrived(s, received), m)
  {
    hide Classify, Select, RestoreOutcome;
  }

  /** The service just after its operation completed. */
  function Reporting(s: Service, c: IoCompletion, received: seq<uint8>): Service
    requires Buffers(s)
  {
    Receive(s, received).(io := s.io.(completion := c, completed := true))
  }

  lemma ReportingKeeps(s: Service, c: IoCompletion, received: seq<uint8>)
    requires Shape(s) && TargetOk(s)
    ensures var t := Reporting(s, c, received);
      && Shape(t) && TargetOk(t) && Expected(t) == Expected(s) && Advance(t) == Advance(s)
      && t.state == s.state && t.active == s.active && t.pending == s.pending && t.generation == s.generation
      && t.completionReady == s.completionReady && t.restoreReady == s.restoreReady
  {
    ReceiveKeeps(s, received);
    hide Receive, ExpectedOf, AdvanceOf;
  }

  lemma CompletionTaken(s: Service, m: Media, flight: Option<Request>, c: IoCompletion, received: seq<uint8>)
    requires CoreInv(s, m, flight) && flight.Some? && c.token == s.io.token
    ensures Buffers(s) && Matches(s, c) && OnIoCompletion(Receive(s, received), c) == Reporting(s, c, received)
  {
    hide Phase, Expected, SuccessState, Advance, Logical;
    assert FlightOk(s, flight);
    hide CoreInv;
    ReceiveKeeps(s, received);
    hide Receive;
  }

  lemma LogicalIsArrived(s: Service, c: IoCompletion, received: seq<uint8>)
    requires Shape(s) && TargetOk(s) && s.io.pending && IsComplete(c)
    requires s.io.successState == SuccessState(s.state) && s.io.advance == Advance(s)
    ensures Logical(Reporting(s, c, received))
         == Arrived(s, received).(io := s.io.(pending := false, completed := false, completion := c))
  {
    ReceiveKeeps(s, received);
    var t := Receive(s, received);
    hide SuccessState, Advance, Receive, Shape, TargetOk, Buffers, Logical, Expected;
    TakenAs(t, c, s.io);
  }

  /** Consuming a complete operation changes only its own fields, the state and the offset. */
  lemma TakenAs(t: Service, c: IoCompletion, io: Io)
    requires io.pending && IsComplete(c)
    ensures Logical(t.(io := io.(completion := c, completed := true)))
         == t.(state := io.successState, writeOffset := (t.writeOffset + io.advance) % 0x1_0000,
               io := io.(pending := false, completed := false, completion := c))
  {
  }

  /** The media and the next phase are as they should be once the completion c has been reported. */
  ghost predicate ReportedOk(s: Service, c: IoCompletion, received: seq<uint8>, m: Media) {
    && |m| == MEDIA_SIZE && Buffers(s) && Buffers(Logical(Reporting(s, c, received)))
    && (IsComplete(c) ==> Phase(Logical(Reporting(s, c, received)), m))
  }

  lemma ReportingHolds(w: World, c: IoCompletion, received: seq<uint8>, m: Media)
    requires Inv(w) && w.flight.Some? && MediaOk(w, m)
    requires c.requestedLength == w.flight.value.Length()
    requires ReportedOk(w.service, c, received, m)
    ensures Inv(w.(service := Reporting(w.service, c, received), media := m, flight := None))
  {
    var t := Reporting(w.service, c, received);
    ReportingCore(w.service, w.media, w.flight, c, received, m);
    ActiveIsLogged(w);
    hide Inv, CoreInv, MediaOk, ReportedOk;
    assert t.active == w.service.active && t.pending == w.service.pending && t.state == w.service.state;
    hide Reporting;
    SameLogHolds(w, t, m, None);
  }

  /** A step that leaves the commit and the waiting record alone needs only the media's promise to the log. */
  lemma SameLogHolds(w: World, t: Service, m: Media, flight: Option<Request>)
    requires MediaOk(w, m) && CoreInv(t, m, flight)
    requires t.active == w.service.active && t.pending == w.service.pending && IsVolumeCommit(t) == IsVolumeCommit(w.service)
    ensures Inv(w.(service := t, media := m, flight := flight))
  {
    hide CoreInv, Durable, NewestIs, AheadOfMedia, IsCandidate, IsVolumeCommit, Newer;
  }

  lemma ReportingCore(s: Service, before: Media, flight: Option<Request>, c: IoCompletion, received: seq<uint8>, m: Media)
    requires CoreInv(s, before, flight) && flight.Some? && c.requestedLength == flight.value.Length()
    requires ReportedOk(s, c, received, m)
    ensures CoreInv(Reporting(s, c, received), m, None)
  {
    ReportingKeeps(s, c, received);
    var t := Reporting(s, c, received);
    assert t.io == s.io.(completion := c, completed := true);
    assert IoFailed(t) <==> !IsComplete(c);
    hide Phase, Expected, SuccessState, Advance, Reporting, Logical, Shape, TargetOk;
  }

  lemma FlightFacts(s: Service, m: Media, flight: Option<Request>)
    requires CoreInv(s, m, flight) && flight.Some?
    ensures |m| == MEDIA_SIZE && Shape(s) && TargetOk(s) && Phase(s, m) && Expected(s) == flight
    ensures s.io.pending && s.io.successState == SuccessState(s.state) && s.io.advance == Advance(s)
  {
    assert Logical(s) == s;
    hide Phase, Expected, SuccessState, Advance, TargetOk;
  }

  lemma EffectComplete(r: Request, c: IoCompletion, m: Media, m': Media, received: seq<uint8>)
    requires Effect(r, c, m, m', received)
    ensures |m'| == |m|
    ensures IsComplete(c) ==> CompleteEffect(r, m, m', received)
  {
  }

  lemma ReportedPhase(s: Service, before: Media, flight: Option<Request>, c: IoCompletion, received: seq<uint8>, m: Media)
    requires CoreInv(s, before, flight) && flight.Some? && Effect(flight.value, c, before, m, received)
    ensures ReportedOk(s, c, received, m)
  {
    FlightFacts(s, before, flight);
    EffectComplete(flight.value, c, before, m, received);
    ReportingKeeps(s, c, received);
    hide Phase, Expected, SuccessState, Advance, Reporting, Arrived, CoreInv, Effect, CompleteEffect, TargetOk;
    if IsComplete(c) {
      LogicalIsArrived(s, c, received);
      IoArrives(s, before, m, received);
      ArrivedPhase(s, c, received, m);
    } else {
      assert Logical(Reporting(s, c, received)) == Reporting(s, c, received) by {
        assert Reporting(s, c, received).io == s.io.(completion := c, completed := true);
      }
    }
  }

  lemma ArrivedPhase(s: Service, c: IoCompletion, received: seq<uint8>, m: Media)
    requires |m| == MEDIA_SIZE && Shape(s) && Buffers(Arrived(s, received)) && Phase(Arrived(s, received), m)
    requires Logical(Reporting(s, c, received))
          == Arrived(s, received).(io := s.io.(pending := false, completed := false, completion := c))
    ensures Buffers(Logical(Reporting(s, c, received))) && Phase(Logical(Reporting(s, c, received)), m)
  {
    hide Phase, Reporting, Arrived, Logical;
    PhaseDependsOn(Arrived(s, received), Logical(Reporting(s, c, received)), m);
  }

  lemma IoDoneStep(w: World, e: Event)
    requires Inv(w) && Enabled(w, e) && e.IoDone?
    ensures Inv(Next(w, e))
  {
    hide Tick, SubmitCheckpoint, TakeCompletion, StartRestoreVolume, TakeRestoredVolume, Reporting, Logical, Phase, CoreInv, ReportedOk;
    var c := Reported(w, e);
    assert CoreInv(w.service, w.media, w.flight);
    hide Inv;
    TornWriteKeeps(w, e.after);
    hide Effect;
    CompletionTaken(w.service, w.media, w.flight, c, e.received);
    ReportedPhase(w.service, w.media, w.flight, c, e.received, e.after);
    ReportingHolds(w, c, e.received, e.after);
  }

  // ---------- Steps that leave the commit alone ----------

  /** A step that touches neither the media, nor the operation in flight, nor what the phases mention. */
  lemma SameCoreHolds(w: World, t: Service)
    requires Inv(w)
    requires PhaseAgrees(w.service, t) && t.io == w.service.io && t.pending == w.service.pending
    requires t.generation == w.service.generation
    requires t.restoreReady == w.service.restoreReady && (t.completionReady ==> w.service.completionReady)
    ensures Inv(w.(service := t))
  {
    var s := w.service;
    SameCoreLogical(s, t);
    PhaseDependsOn(Logical(s), Logical(t), w.media);
    SameCoreExpected(s, t);
    hide Phase, Durable, NewestIs, AheadOfMedia, Expected, SuccessState, Advance, Logical, IsCandidate;
  }

  lemma SameCoreLogical(s: Service, t: Service)
    requires Buffers(Logical(s)) && PhaseAgrees(s, t) && t.io == s.io && t.pending == s.pending
    ensures Buffers(Logical(t)) && PhaseAgrees(Logical(s), Logical(t))
  {
    hide Zeros;
  }

  lemma SameCoreExpected(s: Service, t: Service)
    requires Shape(s) && PhaseAgrees(s, t) && t.pending == s.pending
    ensures Shape(t) && TargetOk(t) == TargetOk(s) && Expected(t) == Expected(s) && Advance(t) == Advance(s)
  {
    hide Zeros, ExpectedOf, AdvanceOf;
  }

  lemma QuietStep(w: World, e: Event)
    requires Inv(w) && Enabled(w, e) && (e.StrayCompletion? || e.TakeCommit?)
    ensures Inv(Next(w, e))
  {
    assert Shape(w.service);
    hide Inv, Tick, SubmitCheckpoint, Receive, StartRestoreVolume, TakeRestoredVolume;
    SameCoreHolds(w, Next(w, e).service);
  }

  /** No commit is active afterwards, and nothing is in flight. */
  lemma IdleHolds(w: World, t: Service)
    requires Inv(w) && w.flight == None && !IsCommit(t)
    requires Buffers(t) && !t.io.pending && !t.io.completed && t.pending == w.service.pending
    requires TargetOk(t) && ReadyOk(t) && RestorePhase(t, w.media)
    ensures Inv(w.(service := t))
  {
    hide RestorePhase, Durable, NewestIs, AheadOfMedia, Expected, SuccessState, Advance, IsCandidate, VolumePhase;
  }

  lemma NothingInFlight(w: World)
    requires Inv(w) && (IsTerminal(w.service.state) || w.service.restoreReady)
    ensures w.flight == None && !w.service.io.pending && !w.service.io.completed
  {
    hide Phase, ActiveOk, PendingOk, Durable;
  }

  lemma StartRestoreStep(w: World)
    requires Inv(w)
    ensures Inv(Next(w, StartRestore))
  {
    hide Tick, SubmitCheckpoint, Receive, OnIoCompletion, TakeRestoredVolume, TakeCompletion, Phase, ActiveOk, PendingOk, Durable;
    var t := StartRestoreVolume(w.service).0;
    if t != w.service {
      NothingInFlight(w);
      IdleHolds(w, t);
    }
  }

  lemma TakeRestoreStep(w: World)
    requires Inv(w)
    ensures Inv(Next(w, TakeRestore))
  {
    hide Tick, SubmitCheckpoint, Receive, OnIoCompletion, StartRestoreVolume, TakeCompletion, Phase, ActiveOk, PendingOk, Durable;
    var t := TakeRestoredVolume(w.service).0;
    if t != w.service {
      NothingInFlight(w);
      IdleHolds(w, t);
    }
  }

  // ---------- Submitting a checkpoint ----------

  lemma DurableGrows(m: Media, log: seq<Entry>, e: Entry, k: nat)
    requires |m| == MEDIA_SIZE && Durable(m, log, k)
    ensures Durable(m, log + [e], k) && k < |log|
  {
    hide Choice, Record;
    var i :| k <= i < |log| && SlotAt(m, Choice(m).selected) == Record(log[i]);
    assert (log + [e])[i] == log[i];
  }

  lemma ActiveGrows(w: World, e: Entry)
    requires |w.media| == MEDIA_SIZE && ActiveOk(w)
    ensures ActiveOk(w.(log := w.log + [e]))
  {
    hide NewestIs, IsCandidate, IsVolumeCommit, AckedBefore;
  }

  lemma PendingGrows(w: World, e: Entry)
    requires |w.media| == MEDIA_SIZE && PendingOk(w)
    ensures PendingOk(w.(log := w.log + [e]))
  {
    hide AheadOfMedia, IsCandidate, IsVolumeCommit, AckedBefore, Newer;
  }

  lemma LogGrows(w: World, e: Entry)
    requires Inv(w)
    ensures Inv(w.(log := w.log + [e]))
    ensures AckedBefore(w.acked, |w.log|)
  {
    assert |w.media| == MEDIA_SIZE;
    hide CoreInv, Durable, ActiveOk, PendingOk;
    ActiveGrows(w, e);
    PendingGrows(w, e);
    if w.acked.Some? {
      DurableGrows(w.media, w.log, e, w.acked.value);
    }
  }

  lemma AheadIsNewest(m: Media, e: Entry)
    requires |m| == MEDIA_SIZE && AheadOfMedia(e.sequence, m)
    ensures NewestIs(m, e)
  {
    hide ValidVolumeSlot, Newer, Record;
  }

  lemma CommitBeginsCore(s: Service, m: Media, c: Candidate)
    requires CoreInv(s, m, None) && IsTerminal(s.state) && !s.completionReady
    requires Acceptable(c.kind, c.length) && |c.buffer| == MAX_SLOT_SIZE
    ensures CoreInv(PrepareActive(s, c), m, None)
  {
    hide Zeros, RestoreOutcome;
  }

  /** A commit begins: from a fresh submission, or from the one that waited. */
  lemma CommitBegins(w: World, c: Candidate, id: nat)
    requires Inv(w) && IsTerminal(w.service.state) && !w.service.completionReady
    requires Acceptable(c.kind, c.length) && |c.buffer| == MAX_SLOT_SIZE
    requires c.kind == TYPE_VOLUME ==>
      && id < |w.log| && AckedBefore(w.acked, id) && IsCandidate(c, w.log[id])
      && AheadOfMedia(w.log[id].sequence, w.media)
    ensures Inv(w.(service := PrepareActive(w.service, c), activeId := id))
  {
    NothingInFlight(w);
    assert |w.media| == MEDIA_SIZE;
    hide CoreInv, Durable, NewestIs, AheadOfMedia, IsCandidate, Blank96;
    CommitBeginsCore(w.service, w.media, c);
    if c.kind == TYPE_VOLUME {
      AheadIsNewest(w.media, w.log[id]);
    }
  }

  lemma PaddedCandidate(kind: uint8, sequence: uint32, version: uint64, volume: Volume)
    requires kind == TYPE_VOLUME && volume.RemaindersInRange()
    ensures var encoded := VolumeSlot(sequence, volume, COMMIT_INVALID);
      && Acceptable(kind, |encoded|)
      && IsCandidate(Candidate(kind, sequence, version, |encoded|, Padded(encoded)), Entry(sequence, volume))
  {
    hide VolumeSlot;
    var encoded := VolumeSlot(sequence, volume, COMMIT_INVALID);
    assert Padded(encoded)[..VOLUME_SLOT_SIZE] == encoded;
  }

  lemma PendingReplacedCore(s: Service, m: Media, flight: Option<Request>, c: Candidate)
    requires CoreInv(s, m, flight) && IsCommit(s) && |c.buffer| == MAX_SLOT_SIZE
    ensures CoreInv(s.(pending := Some(c)), m, flight)
  {
    var t := s.(pending := Some(c));
    PendingLogical(s, c);
    PhaseDependsOn(Logical(s), Logical(t), m);
    PendingExpected(s, c);
    hide Phase, SuccessState, Logical, Expected, Advance;
  }

  lemma PendingLogical(s: Service, c: Candidate)
    requires Buffers(Logical(s)) && |c.buffer| == MAX_SLOT_SIZE && IsCommit(s)
    ensures var t := s.(pending := Some(c));
      Buffers(Logical(t)) && PhaseAgrees(Logical(s), Logical(t))
  {
    hide Zeros, FinishCommit, IsComplete;
  }

  lemma PendingExpected(s: Service, c: Candidate)
    requires Shape(s) && |c.buffer| == MAX_SLOT_SIZE
    ensures var t := s.(pending := Some(c));
      Shape(t) && TargetOk(t) == TargetOk(s) && Expected(t) == Expected(s) && Advance(t) == Advance(s)
  {
    hide ExpectedOf, AdvanceOf, Zeros;
  }

  /** A submission during a commit waits, replacing whatever waited before. */
  lemma PendingReplaced(w: World, c: Candidate, id: nat)
    requires Inv(w) && IsCommit(w.service) && |c.buffer| == MAX_SLOT_SIZE
    requires c.kind == TYPE_VOLUME ==>
      && id < |w.log| && AckedBefore(w.acked, id) && IsCandidate(c, w.log[id])
      && AheadOfMedia(w.log[id].sequence, w.media)
      && (IsVolumeCommit(w.service) ==> w.activeId < id && Newer(w.log[id].sequence, w.service.active.sequence))
    ensures Inv(w.(service := w.service.(pending := Some(c)), pendingId := id))
  {
    assert |w.media| == MEDIA_SIZE;
    hide CoreInv, Durable, NewestIs, AheadOfMedia, IsCandidate, Newer;
    PendingReplacedCore(w.service, w.media, w.flight, c);
  }

  lemma SubmitStep(w: World, e: Event)
    requires Inv(w) && Enabled(w, e) && e.Submit?
    ensures Inv(Next(w, e))
  {
    hide Tick, Receive, OnIoCompletion, StartRestoreVolume, TakeRestoredVolume, TakeCompletion, VolumeSlot, PrepareActive;
    var s := w.service;
    var c := Candidate(e.kind, e.sequence, e.version, |e.encoded|, if |e.encoded| <= MAX_SLOT_SIZE then Padded(e.encoded) else []);
    var (t, status) := SubmitCheckpoint(s, e.kind, e.sequence, e.encoded, e.version);
    var entry := Entry(e.sequence, e.volume);
    var w' := w.(log := w.log + [entry]);
    if e.kind == TYPE_VOLUME {
      LogGrows(w, entry);
      PaddedCandidate(e.kind, e.sequence, e.version, e.volume);
      ActiveIsLogged(w);
    }
    hide Inv, AheadOfMedia, IsCandidate, Padded, Newer, CoreInv;
    if status == StatusOk {
      if e.kind == TYPE_VOLUME {
        CommitBegins(w', c, |w.log|);
      } else {
        CommitBegins(w, c, w.activeId);
      }
    } else if status == StatusBusy && !IsTerminal(s.state) {
      if e.kind == TYPE_VOLUME {
        PendingReplaced(w', c, |w.log|);
      } else {
        PendingReplaced(w, c, w.pendingId);
      }
    }
  }

  lemma ActiveIsLogged(w: World)
    requires Inv(w)
    ensures |w.media| == MEDIA_SIZE && Shape(w.service)
    ensures IsVolumeCommit(w.service) ==> w.activeId < |w.log|
  {
    hide Durable, Phase, IsCandidate, Expected, NewestIs, AheadOfMedia;
  }

  // ---------- A turn of the service ----------

  /** A step of the service alone: the log's part of the invariant needs nothing but that no commit appears. */
  lemma LogKeeps(w: World, t: Service, flight: Option<Request>)
    requires Inv(w) && CoreInv(t, w.media, flight)
    requires t.pending == w.service.pending && t.active == w.service.active
    requires IsVolumeCommit(t) ==> IsVolumeCommit(w.service)
    ensures Inv(w.(service := t, flight := flight))
  {
    hide CoreInv, Durable, NewestIs, AheadOfMedia, IsCandidate, Newer;
  }

  /** What a core step reports about itself. */
  ghost predicate CoreStep(s: Service, t: Service, m: Media, flight: Option<Request>) {
    && CoreInv(t, m, flight) && t.pending == s.pending && t.active == s.active
    && (IsVolumeCommit(t) ==> IsVolumeCommit(s))
  }

  lemma ConsumedIsLogical(s: Service)
    requires s.io.pending && s.io.completed && IsComplete(s.io.completion)
    ensures ConsumeIoCompletion(s) == Logical(s)
  {
  }

  lemma SuccessIsQuiet(s: State)
    requires s == ScanA || s == ScanB || s == Invalidate || s == VerifyInvalidate || s == WriteBody || s == ReadbackBody
          || s == Commit || s == VerifyCommit || s == RestoreScanA || s == RestoreScanB
    ensures IsRestore(SuccessState(s)) == IsRestore(s) && !IsTerminal(SuccessState(s))
    ensures SuccessState(s) != RestoreComplete && SuccessState(s) != RestoreFailed
  {
  }

  lemma ConsumeComplete(s: Service, m: Media)
    requires CoreInv(s, m, None) && s.io.pending && s.io.completed && IsComplete(s.io.completion)
    ensures CoreStep(s, ConsumeIoCompletion(s), m, None) && ConsumeIoCompletion(s).state != Complete
  {
    ConsumedIsLogical(s);
    assert Expected(s).Some?;
    SuccessIsQuiet(s.state);
    var t := Logical(s);
    assert Logical(t) == t;
    hide VolumePhase, RestorePhase, ExpectedOf, SuccessState, AdvanceOf;
  }

  lemma FailIoCore(s: Service, m: Media, result: IoResult)
    requires |m| == MEDIA_SIZE && Buffers(s) && !IsTerminal(s.state) && s.state != RestoreComplete && s.state != RestoreFailed
    requires !s.io.pending && !s.io.completed && ReadyOk(s)
    ensures CoreStep(s, FailIo(s, result), m, None) && FailIo(s, result).state != Complete
  {
    hide RestoreOutcome, Choice, Zeros;
  }

  lemma ConsumeFailed(s: Service, m: Media)
    requires CoreInv(s, m, None) && s.io.pending && s.io.completed && !IsComplete(s.io.completion)
    ensures CoreStep(s, ConsumeIoCompletion(s), m, None) && ConsumeIoCompletion(s).state != Complete
  {
    assert Expected(s).Some?;
    SuccessIsQuiet(s.state);
    hide Phase, SuccessState, CoreStep;
    var done := s.(io := s.io.(pending := false, completed := false));
    FailIoCore(done, m, if s.io.completion.result == IoOk then IoShortTransfer else s.io.completion.result);
    CoreStepFrom(s, done, ConsumeIoCompletion(s), m);
  }

  lemma CoreStepFrom(s: Service, u: Service, t: Service, m: Media)
    requires CoreStep(u, t, m, None) && u.pending == s.pending && u.active == s.active && u.state == s.state
    ensures CoreStep(s, t, m, None)
  {
    hide CoreInv;
  }

  lemma ExpectedInProgress(s: Service)
    requires Expected(s).Some?
    ensures Advance(s) >= 0 && !IsTerminal(s.state) && s.state != RestoreComplete && s.state != RestoreFailed
  {
  }

  lemma StagedAgrees(s: Service, accepted: bool)
    requires Shape(s) && Advance(s) >= 0
    ensures var t := Staged(s, SuccessState(s.state), Advance(s), accepted);
      && PhaseAgrees(s, t) && Shape(t) && TargetOk(t) == TargetOk(s) && ReadyOk(t) == ReadyOk(s)
      && t.pending == s.pending && t.generation == s.generation
      && t.io.pending == accepted && !t.io.completed && t.io.token.ownerGeneration == t.generation
      && t.io.successState == SuccessState(s.state) && t.io.advance == Advance(s)
  {
    hide SuccessState, AdvanceOf, Zeros;
  }

  lemma StagedCore(s: Service, m: Media)
    requires CoreInv(s, m, None) && !s.io.pending && Expected(s).Some?
    ensures CoreStep(s, Staged(s, SuccessState(s.state), Advance(s), true), m, Expected(s))
  {
    var t := Staged(s, SuccessState(s.state), Advance(s), true);
    StagedAgrees(s, true);
    hide Phase, SuccessState, ExpectedOf, AdvanceOf, Staged, TargetOk, ReadyOk, Shape;
    assert Logical(s) == s && Logical(t) == t;
    assert Buffers(t);
    PhaseDependsOn(s, t, m);
  }

  /** Submitting the operation a state calls for, with whatever the port answers. */
  lemma SubmitIoCore(s: Service, m: Media, request: Request, now: uint64, accepted: bool)
    requires CoreInv(s, m, None) && !s.io.pending && Expected(s) == Some(request)
    ensures var (t, flight) := SubmitIo(s, request, SuccessState(s.state), Advance(s), now, accepted);
      CoreStep(s, t, m, flight) && t.state != Complete
  {
    ExpectedInProgress(s);
    StagedAgrees(s, accepted);
    var u := Staged(s, SuccessState(s.state), Advance(s), accepted);
    assert !s.io.completed && Buffers(u);
    if UINT64_MAX - now < s.ioTimeoutUs {
      FailIoCore(s, m, IoBusError);
    } else if accepted {
      StagedCore(s, m);
    } else {
      FailIoCore(u, m, IoBusError);
      CoreStepFrom(s, u, FailIo(u, IoBusError), m);
    }
    hide CoreInv, CoreStep, SuccessState, Expected, AdvanceOf, Staged, FailIo;
  }

  lemma WithIoByteCore(s: Service, m: Media)
    requires CoreInv(s, m, None) && !s.io.pending
    ensures CoreInv(WithIoByte(s), m, None) && Expected(WithIoByte(s)) == Expected(s)
  {
    hide ExpectedOf, AdvanceOf, Choice, Expendable, RestoreOutcome, Zeros, VolumeSlot;
  }

  lemma SubmittingTurn(s: Service, m: Media, now: uint64, accepted: bool)
    requires CoreInv(s, m, None) && !s.io.pending && Expected(s).Some?
    ensures var (t, flight) := Tick(s, now, accepted);
      CoreStep(s, t, m, flight) && t.state != Complete
  {
    ExpectedInProgress(s);
    WithIoByteCore(s, m);
    SubmitIoCore(WithIoByte(s), m, Expected(s).value, now, accepted);
    hide CoreInv, SubmitIo, ExpectedOf, SuccessState, AdvanceOf;
  }

  // ---------- Turns that do no I/O ----------

  lemma CandidateHeader(c: Candidate, e: Entry)
    requires IsCandidate(c, e)
    ensures c.buffer[5] == VOLUME_SCHEMA && Read16(c.buffer, 6) == VOLUME_PAYLOAD_SIZE
  {
    RecordFields(e.sequence, e.volume, COMMIT_INVALID);
    hide VolumeSlot, DecodedVolume;
    var b := c.buffer[..VOLUME_SLOT_SIZE];
    assert b[5] == c.buffer[5] && b[6] == c.buffer[6] && b[7] == c.buffer[7];
  }

  lemma ScansAreChoice(s: Service, m: Media, e: Entry)
    requires |m| == MEDIA_SIZE && Shape(s) && s.state == PrepareTarget && IsVolumeCommit(s) && VolumePhase(s, m)
    requires IsCandidate(s.active, e)
    ensures Select(s.scanA[..s.slotSize], s.scanB[..s.slotSize], s.active.kind, s.active.buffer[5], Read16(s.active.buffer, 6))
         == Choice(m)
  {
    CandidateHeader(s.active, e);
    hide Select, IsCandidate, Read16;
    assert s.slotSize == VOLUME_SLOT_SIZE;
  }

  lemma ChosenIsUnselected(selection: Selection)
    requires selection.status == Selected <==> selection.selected != NoSlot
    ensures ChooseTarget(selection) != NoSlot ==>
      selection.status != SequenceConflict && selection.selected != ChooseTarget(selection)
  {
  }

  lemma TargetIsExpendableNow(s: Service, m: Media, e: Entry)
    requires |m| == MEDIA_SIZE && Shape(s) && s.state == PrepareTarget && IsVolumeCommit(s) && VolumePhase(s, m)
    requires IsCandidate(s.active, e)
    ensures var t := ChooseTargetSlot(s);
      t.state == Invalidate ==> Expendable(t.targetSlot, m)
  {
    ScansAreChoice(s, m, e);
    SelectedIffSome(SlotAt(m, SlotA), SlotAt(m, SlotB));
    ChosenIsUnselected(Choice(m));
    hide Select, ChooseTarget, VolumePhase, IsCandidate, SlotAt, Read16, SlotAddress;
  }

  lemma ChosenCore(s: Service, t: Service, m: Media)
    requires CoreInv(s, m, None) && !s.io.pending && s.state == PrepareTarget
    requires Shape(t) && TargetOk(t) && ReadyOk(t) && t.io == s.io && t.pending == s.pending && t.active == s.active
    requires t.state == Invalidate || t.state == Failed
    requires IsVolumeCommit(t) ==> Expendable(t.targetSlot, m)
    ensures CoreStep(s, t, m, None)
  {
    assert Logical(s) == s;
    hide Expendable, RestoreOutcome, Zeros;
  }

  lemma PrepareTargetCore(s: Service, m: Media, e: Entry)
    requires CoreInv(s, m, None) && !s.io.pending && s.state == PrepareTarget
    requires IsVolumeCommit(s) ==> IsCandidate(s.active, e)
    ensures CoreStep(s, InternalStep(s), m, None) && InternalStep(s).state != Complete
  {
    ChosenShape(s);
    assert Logical(s) == s;
    hide ChooseTargetSlot, Expendable, IsCandidate, VolumePhase;
    if IsVolumeCommit(s) {
      TargetIsExpendableNow(s, m, e);
    }
    hide CoreInv, CoreStep;
    ChosenCore(s, ChooseTargetSlot(s), m);
  }

  lemma ChosenShape(s: Service)
    requires Shape(s) && s.state == PrepareTarget && !s.io.pending && !s.io.completed && ReadyOk(s)
    ensures var t := ChooseTargetSlot(s);
      && Shape(t) && TargetOk(t) && ReadyOk(t) && t.io == s.io && t.pending == s.pending && t.active == s.active
      && (t.state == Invalidate || t.state == Failed)
  {
    hide Select, ChooseTarget, Zeros;
  }

  lemma FinishCore(s: Service, m: Media, status: CommitStatus)
    requires CoreInv(s, m, None) && !s.io.pending && IsCommit(s)
    ensures CoreStep(s, FinishCommit(s, status), m, None)
  {
    hide RestoreOutcome, VolumePhase, ExpectedOf, Zeros;
  }

  /** A commit moves on without I/O. */
  lemma CommitMoves(s: Service, t: Service, m: Media)
    requires CoreInv(s, m, None) && !s.io.pending && IsCommit(s) && IsCommit(t)
    requires t == s.(state := t.state, writeOffset := t.writeOffset)
    requires TargetOk(t) && (IsVolumeCommit(s) ==> VolumePhase(t, m))
    ensures CoreStep(s, t, m, None)
  {
    hide VolumePhase, RestoreOutcome, Zeros, ExpectedOf, AdvanceOf, TargetOk;
  }

  lemma CheckInvalidateCore(s: Service, m: Media)
    requires CoreInv(s, m, None) && !s.io.pending && s.state == CheckInvalidate && s.ioByte != COMMIT_VALID
    ensures CoreStep(s, s.(writeOffset := 0, state := WriteBody), m, None)
  {
    assert Logical(s) == s;
    hide Choice, Expendable, RestoreOutcome, Zeros, AdvanceOf, CoreStep;
    CommitMoves(s, s.(writeOffset := 0, state := WriteBody), m);
  }

  lemma WrittenCore(s: Service, m: Media)
    requires CoreInv(s, m, None) && !s.io.pending && s.state == WriteBody && s.writeOffset >= BodySize(s)
    ensures CoreStep(s, s.(writeOffset := 0, state := ReadbackBody), m, None)
  {
    assert Logical(s) == s;
    hide Choice, Expendable, RestoreOutcome, Zeros, AdvanceOf, CoreStep;
    CommitMoves(s, s.(writeOffset := 0, state := ReadbackBody), m);
  }

  lemma ReadBackCore(s: Service, m: Media)
    requires CoreInv(s, m, None) && !s.io.pending && s.state == ReadbackBody && s.writeOffset >= BodySize(s)
    ensures CoreStep(s, s.(state := VerifyBody), m, None)
  {
    assert Logical(s) == s;
    assert SlotSize(TYPE_VOLUME) == 64;
    assert Shape(s) && TargetOk(s) && (IsVolumeCommit(s) ==> VolumePhase(s, m));
    hide CoreInv, Choice, Expendable, RestoreOutcome, Zeros, AdvanceOf, CoreStep, FlightOk, ReadyOk, RestorePhase;
    CommitMoves(s, s.(state := VerifyBody), m);
  }

  lemma VerifiedCore(s: Service, m: Media)
    requires CoreInv(s, m, None) && !s.io.pending && s.state == VerifyBody
    requires s.active.buffer[..BodySize(s)] == s.readback[..BodySize(s)]
    ensures CoreStep(s, s.(state := Commit), m, None)
  {
    assert Logical(s) == s;
    hide Choice, Expendable, RestoreOutcome, Zeros, AdvanceOf, CoreStep;
    CommitMoves(s, s.(state := Commit), m);
  }

  lemma DecodedCore(s: Service, m: Media)
    requires CoreInv(s, m, None) && !s.io.pending && s.state == RestoreDecode
    ensures CoreStep(s, DecodeRestore(s), m, None) && DecodeRestore(s).state != Complete
  {
    assert Logical(s) == s;
    assert Shape(s) && TargetOk(s) && RestorePhase(s, m);
    hide Choice, Expendable, RestoreOutcome, Zeros, AdvanceOf, VolumePhase;
  }

  /** A commit is acknowledged only with its record in place. */
  lemma AckedRecord(w: World)
    requires Inv(w) && !w.service.io.pending && IsVolumeCommit(w.service)
    requires w.service.state == CheckCommit && w.service.ioByte == COMMIT_VALID
    ensures |w.media| == MEDIA_SIZE && Durable(w.media, w.log, w.activeId)
  {
    var s, e := w.service, w.log[w.activeId];
    assert Logical(s) == s;
    hide NewestIs, AheadOfMedia, Durable, VolumeSlot, ExpectedOf, Record;
    CommittedBody(SlotAt(w.media, s.targetSlot), e, s.active.buffer);
    RecordInPlace(w.media, s.targetSlot, w.log, w.activeId);
  }

  /** The turn with nothing pending and nothing to submit. */
  lemma InternalTurn(s: Service, m: Media, e: Entry)
    requires CoreInv(s, m, None) && !s.io.pending && Expected(s).None? && (IsCommit(s) || s.state == RestoreDecode)
    requires IsVolumeCommit(s) ==> IsCandidate(s.active, e)
    ensures var t := InternalStep(s);
      && CoreStep(s, t, m, None)
      && (t.state == Complete ==> s.state == CheckCommit && s.ioByte == COMMIT_VALID)
  {
    assert Shape(s) && (IsCommit(s) ==> s.slotSize <= MAX_SLOT_SIZE);
    hide CoreInv, CoreStep, ChooseTargetSlot, DecodeRestore, IsCandidate;
    match s.state
    case PrepareTarget => PrepareTargetCore(s, m, e);
    case CheckInvalidate =>
      if s.ioByte == COMMIT_VALID { FinishCore(s, m, CommitVerifyError); } else { CheckInvalidateCore(s, m); }
    case WriteBody => WrittenCore(s, m);
    case ReadbackBody => ReadBackCore(s, m);
    case VerifyBody =>
      if s.active.buffer[..BodySize(s)] != s.readback[..BodySize(s)] {
        FinishCore(s, m, CommitVerifyError);
      } else {
        VerifiedCore(s, m);
      }
    case CheckCommit => FinishCore(s, m, if s.ioByte != COMMIT_VALID then CommitVerifyError else CommitOk);
    case RestoreDecode => DecodedCore(s, m);
    case _ =>
  }

  /** A turn that only consumes, submits or steps: the service's own part. */
  lemma TurnCore(w: World, now: uint64, accepted: bool)
    requires Inv(w) && !MayPromote(w.service) && (w.service.io.pending ==> w.service.io.completed)
    ensures Shape(w.service) && |w.media| == MEDIA_SIZE && w.flight == None
    ensures var (t, flight) := Tick(w.service, now, accepted);
      && CoreStep(w.service, t, w.media, flight)
      && (IsCommit(w.service) && t.state == Complete ==>
            w.service.state == CheckCommit && w.service.ioByte == COMMIT_VALID && !w.service.io.pending)
  {
    var s := w.service;
    assert CoreInv(s, w.media, None) && Shape(s);
    hide CoreInv, CoreStep, ConsumeIoCompletion, SubmitIo, InternalStep, ExpectedOf, SuccessState, AdvanceOf;
    if s.io.pending {
      if IsComplete(s.io.completion) {
        ConsumeComplete(s, w.media);
      } else {
        ConsumeFailed(s, w.media);
      }
    } else if Expected(s).Some? {
      ExpectedInProgress(s);
      SubmittingTurn(s, w.media, now, accepted);
    } else if IsCommit(s) || s.state == RestoreDecode {
      InternalTurn(s, w.media, if IsVolumeCommit(s) then w.log[w.activeId] else Entry(0, NO_VOLUME));
    } else {
      IdleTurn(s, w.media);
    }
  }

  lemma IdleTurn(s: Service, m: Media)
    requires CoreInv(s, m, None) && Expected(s).None? && !IsCommit(s) && s.state != RestoreDecode
    ensures InternalStep(s) == s && CoreStep(s, s, m, None)
  {
    hide CoreInv;
  }

  lemma Promotes(w: World)
    requires Inv(w) && MayPromote(w.service)
    ensures Inv(w.(service := PromotePending(w.service), activeId := w.pendingId))
  {
    var s := w.service;
    var c := s.pending.value;
    NothingInFlight(w);
    if Acceptable(c.kind, c.length) {
      assert |c.buffer| == MAX_SLOT_SIZE;
      hide CoreInv, Durable, AheadOfMedia, IsCandidate, PrepareActive;
      CommitBegins(w, c, w.pendingId);
    } else {
      RejectedCore(s, w.media);
      hide CoreInv, Durable, NewestIs, AheadOfMedia, IsCandidate;
    }
  }

  lemma RejectedCore(s: Service, m: Media)
    requires CoreInv(s, m, None) && MayPromote(s)
    ensures CoreInv(FinishCommit(s.(pending := None), CommitRejected), m, None)
  {
    hide RestoreOutcome, Zeros;
  }

  lemma TurnStep(w: World, e: Event)
    requires Inv(w) && e.Turn?
    ensures Inv(Next(w, e))
  {
    var s := w.service;
    TurnFacts(w);
    hide Inv, CoreInv;
    if s.io.pending && !s.io.completed {
      WaitingTurn(w, e);
    } else if MayPromote(s) {
      Promotes(w);
      PromotingTurn(w, e);
    } else {
      TurnCore(w, e.now, e.accepted);
      var (t, flight) := Tick(s, e.now, e.accepted);
      LogKeeps(w, t, flight);
      var acknowledges := IsVolumeCommit(s) && t.state == Complete;
      if acknowledges {
        AckedRecord(w);
        PendingIsLater(w);
        AckHolds(w.(service := t, flight := flight));
      }
      PlainTurn(w, e, acknowledges);
      hide *;
    }
  }

  /** What a turn is, as an event: nothing while an operation is out, */
  lemma WaitingTurn(w: World, e: Event)
    requires e.Turn? && Shape(w.service) && w.service.io.pending && !w.service.io.completed
    ensures Next(w, e) == w
  {
    assert Tick(w.service, e.now, e.accepted) == (w.service, None);
    assert w.(service := w.service, flight := w.flight) == w;
    hide Shape;
  }

  /** the promotion of the waiting record, */
  lemma PromotingTurn(w: World, e: Event)
    requires e.Turn? && Shape(w.service) && !w.service.io.pending && MayPromote(w.service)
    ensures Next(w, e) == w.(service := PromotePending(w.service), activeId := w.pendingId)
  {
    PromotedClears(w.service);
    hide Shape, PromotePending, Expected, InternalStep;
  }

  /** or one step of the service, which may acknowledge. */
  lemma PlainTurn(w: World, e: Event, acknowledges: bool)
    requires e.Turn? && Shape(w.service) && !MayPromote(w.service)
    requires var (t, flight) := Tick(w.service, e.now, e.accepted);
      t.pending == w.service.pending && (flight.None? ==> w.flight == None)
      && (acknowledges <==> IsVolumeCommit(w.service) && t.state == Complete)
    ensures var (t, flight) := Tick(w.service, e.now, e.accepted);
      Next(w, e) == if acknowledges then w.(service := t, flight := flight, acked := Some(w.activeId))
                    else w.(service := t, flight := flight)
  {
    hide Shape, Tick;
    var (t, flight) := Tick(w.service, e.now, e.accepted);
    var u := w.(service := t, flight := if flight.Some? then flight else w.flight);
    assert u == w.(service := t, flight := flight);
    if acknowledges {
      assert Next(w, e) == u.(acked := Some(w.activeId));
    } else {
      assert Next(w, e) == u;
    }
  }

  lemma TurnFacts(w: World)
    requires Inv(w)
    ensures Shape(w.service) && (MayPromote(w.service) ==> !w.service.io.pending && w.flight == None)
  {
    if MayPromote(w.service) {
      NothingInFlight(w);
    }
    hide Phase, Durable, ActiveOk, PendingOk;
  }

  lemma PromotedClears(s: Service)
    requires s.pending.Some?
    ensures PromotePending(s).pending == None && PromotePending(s).state != Complete
  {
  }

  lemma PendingIsLater(w: World)
    requires Inv(w) && IsVolumeCommit(w.service)
    ensures w.activeId < |w.log|
    ensures w.service.pending.Some? && w.service.pending.value.kind == TYPE_VOLUME ==> w.activeId < w.pendingId
  {
    hide CoreInv, Durable, NewestIs, AheadOfMedia, IsCandidate, Newer;
  }

  lemma AckHolds(w: World)
    requires Inv(w) && w.service.state == Complete && w.activeId < |w.log|
    requires |w.media| == MEDIA_SIZE && Durable(w.media, w.log, w.activeId)
    requires w.service.pending.Some? && w.service.pending.value.kind == TYPE_VOLUME ==> w.activeId < w.pendingId
    ensures Inv(w.(acked := Some(w.activeId)))
  {
    hide CoreInv, Durable, NewestIs, AheadOfMedia, IsCandidate;
  }

  // ---------- Runs ----------

  lemma StepHolds(w: World, e: Event)
    requires Inv(w) && Enabled(w, e)
    ensures Inv(Next(w, e))
  {
    hide Inv, Next, Enabled;
    match e
    case Submit(_, _, _, _, _) => SubmitStep(w, e);
    case Turn(_, _) => TurnStep(w, e);
    case IoDone(_, _, _, _) => IoDoneStep(w, e);
    case StrayCompletion(_) => QuietStep(w, e);
    case TakeCommit => QuietStep(w, e);
    case StartRestore => StartRestoreStep(w);
    case TakeRestore => TakeRestoreStep(w);
    case PowerLoss(left) => PowerLossStep(w, left);
  }

  ghost predicate IsRun(w: World, events: seq<Event>, end: World)
    decreases |events|
  {
    if events == [] then end == w
    else |w.media| == MEDIA_SIZE && Shape(w.service) && Enabled(w, events[0])
         && IsRun(Next(w, events[0]), events[1..], end)
  }

  lemma {:induction false} RunHolds(w: World, events: seq<Event>, end: World)
    requires Inv(w) && IsRun(w, events, end)
    ensures Inv(end)
    decreases |events|
  {
    hide Inv, Next, Enabled;
    if events != [] {
      StepHolds(w, events[0]);
      RunHolds(Next(w, events[0]), events[1..], end);
    }
  }

  /** The log only grows, by records the encoder accepts, and acknowledgements only move to later records. */
  ghost predicate Later(w: World, w': World) {
    && w.log <= w'.log && AllEncodable(w'.log[|w.log|..])
    && (w.acked.Some? ==> w'.acked.Some? && w.acked.value <= w'.acked.value)
  }

  ghost predicate AllEncodable(log: seq<Entry>) {
    forall i :: 0 <= i < |log| ==> log[i].volume.RemaindersInRange()
  }

  lemma EncodableAppends(a: seq<Entry>, b: seq<Entry>, c: seq<Entry>)
    requires a <= b <= c && AllEncodable(b[|a|..]) && AllEncodable(c[|b|..])
    ensures AllEncodable(c[|a|..])
  {
    assert c[|a|..] == b[|a|..] + c[|b|..];
  }

  lemma StepIsLater(w: World, e: Event)
    requires Inv(w) && Enabled(w, e)
    ensures Later(w, Next(w, e))
  {
    if e.Turn? {
      TurnIsLater(w, e);
    } else {
      assert Shape(w.service) && |w.media| == MEDIA_SIZE;
      assert e.Submit? && e.kind == TYPE_VOLUME ==> e.volume.RemaindersInRange();
      hide *;
      KeepsLog(w, e);
    }
  }

  lemma KeepsLog(w: World, e: Event)
    requires Shape(w.service) && !e.Turn?
    requires e.Submit? && e.kind == TYPE_VOLUME ==> e.volume.RemaindersInRange()
    ensures Later(w, Next(w, e))
  {
    hide Shape, SubmitCheckpoint, Receive, OnIoCompletion, StartRestoreVolume, TakeRestoredVolume, TakeCompletion;
  }

  lemma TurnIsLater(w: World, e: Event)
    requires Inv(w) && e.Turn?
    ensures Later(w, Next(w, e))
  {
    assert Shape(w.service) && (IsVolumeCommit(w.service) ==> AckedBefore(w.acked, w.activeId));
    hide *;
    TurnKeepsLog(w, e);
  }

  lemma TurnKeepsLog(w: World, e: Event)
    requires Shape(w.service) && (IsVolumeCommit(w.service) ==> AckedBefore(w.acked, w.activeId)) && e.Turn?
    ensures Later(w, Next(w, e))
  {
    hide Shape, Tick;
  }

  lemma {:induction false} RunIsLater(w: World, events: seq<Event>, end: World)
    requires Inv(w) && IsRun(w, events, end)
    ensures Later(w, end)
    decreases |events|
  {
    hide Inv, Next, Enabled;
    if events != [] {
      StepHolds(w, events[0]);
      StepIsLater(w, events[0]);
      RunIsLater(Next(w, events[0]), events[1..], end);
      EncodableAppends(w.log, Next(w, events[0]).log, end.log);
    }
  }

  // ---------- The safety theorem ----------

  /** Over every run of checkpoints, refused, failed and torn operations, power losses and restores: once a record
      has been acknowledged, a restore reports an I/O error or yields, byte-exact, that record or a later submitted
      one. It is never empty, corrupt, conflicting or mixed. */
  lemma AcknowledgedSurvives(start: World, before: seq<Event>, acked: World, after: seq<Event>, end: World, k: nat)
    requires Start(start) && IsRun(start, before, acked) && acked.acked == Some(k)
    requires IsRun(acked, after, end) && end.service.restoreReady
    ensures k < |acked.log| && acked.log <= end.log
    ensures (end.service.restoreStatus == RestoreIoError && end.service.state == RestoreFailed)
      || (&& end.service.restoreStatus == RestoreOk
          && exists i :: k <= i < |end.log|
               && end.service.restored.volume == end.log[i].volume
               && end.service.restored.sequence == end.log[i].sequence)
  {
    RestartHolds(start);
    RunHolds(start, before, acked);
    RunHolds(acked, after, end);
    RunIsLater(start, before, acked);
    RunIsLater(acked, after, end);
    AckedIsLogged(acked);
    hide Inv, IsRun;
    EncodableAppends([], acked.log, end.log);
    assert end.log[|start.log|..] == end.log;
    RestoredIsDurable(end, end.acked.value);
  }

  lemma AckedIsLogged(w: World)
    requires Inv(w) && w.acked.Some?
    ensures w.acked.value < |w.log|
  {
    hide CoreInv, ActiveOk, PendingOk, Choice, Record;
  }

  /** The same on the media itself, at every moment of every run. */
  lemma AcknowledgedIsOnMedia(start: World, before: seq<Event>, acked: World, after: seq<Event>, end: World, k: nat)
    requires Start(start) && IsRun(start, before, acked) && acked.acked == Some(k)
    requires IsRun(acked, after, end)
    ensures |end.media| == MEDIA_SIZE && Durable(end.media, end.log, k)
  {
    RestartHolds(start);
    RunHolds(start, before, acked);
    RunHolds(acked, after, end);
    RunIsLater(acked, after, end);
    hide CoreInv, ActiveOk, PendingOk, Start, IsRun, Choice, Record;
    DurableWeakens(end.media, end.log, end.acked.value, k);
  }

  lemma DurableWeakens(m: Media, log: seq<Entry>, j: nat, k: nat)
    requires |m| == MEDIA_SIZE && k <= j && Durable(m, log, j)
    ensures Durable(m, log, k)
  {
    hide Choice, Record;
  }

  lemma OutcomeIsRecord(m: Media, log: seq<Entry>, k: nat)
    requires |m| == MEDIA_SIZE && Durable(m, log, k) && AllEncodable(log)
    ensures var (status, restored) := RestoreOutcome(SlotAt(m, SlotA), SlotAt(m, SlotB));
      && status == RestoreOk
      && exists i :: k <= i < |log| && restored.volume == log[i].volume && restored.sequence == log[i].sequence
  {
    hide Classify, Select, Record, Read32, ValidVolumeSlot, Decode;
    SelectedIffSome(SlotAt(m, SlotA), SlotAt(m, SlotB));
    var i :| k <= i < |log| && SlotAt(m, Choice(m).selected) == Record(log[i]);
    RecordIsValid(log[i]);
  }

  lemma RestoredIsDurable(w: World, k: nat)
    requires Inv(w) && w.acked == Some(k) && w.service.restoreReady && AllEncodable(w.log)
    ensures (w.service.restoreStatus == RestoreIoError && w.service.state == RestoreFailed)
      || (&& w.service.restoreStatus == RestoreOk
          && exists i :: k <= i < |w.log|
               && w.service.restored.volume == w.log[i].volume && w.service.restored.sequence == w.log[i].sequence)
  {
    ReportedRestore(w.service, w.media, w.flight);
    hide CoreInv, ActiveOk, PendingOk, Durable, RestoreOutcome;
    OutcomeIsRecord(w.media, w.log, k);
  }

  lemma ReportedRestore(s: Service, m: Media, flight: Option<Request>)
    requires CoreInv(s, m, flight) && s.restoreReady
    ensures (s.restoreStatus == RestoreIoError && s.state == RestoreFailed)
         || (s.restoreStatus, s.restored) == RestoreOutcome(SlotAt(m, SlotA), SlotAt(m, SlotB))
  {
    assert !s.io.pending;
    assert Logical(s) == s;
    hide RestoreOutcome, SlotAt, VolumePhase;
  }
}
