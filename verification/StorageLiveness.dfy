/** The safety theorem is not met by failing: a commit that meets no fault is acknowledged if the media offered it a
    target, there always is such a run, and what was acknowledged can always be had back. */
module StorageLiveness {
  import opened Bits
  import opened LittleEndian
  import opened StorageRecord
  import opened AbSlot
  import opened StoragePort
  import opened StorageService
  import opened StorageSafety
  import opened StorageProgress

  /** The slots do not conflict, and neither holds a record that must be kept for another firmware. */
  predicate Choosable(m: Media)
    requires |m| == MEDIA_SIZE
  {
    ChooseTarget(Choice(m)) != NoSlot
  }

  /** Nothing has gone wrong so far in a volume commit that is to end well exactly if ok. */
  ghost predicate Clean(s: Service, m: Media, ok: bool)
    requires |m| == MEDIA_SIZE && Buffers(s)
  {
    var slot := SlotAt(m, s.targetSlot);
    var body := s.active.buffer[..63];
    match s.state
    case ScanA | ScanB | PrepareTarget => ok == Choosable(m)
    case VerifyInvalidate => ok && slot[63] != COMMIT_VALID
    case CheckInvalidate => ok && s.ioByte != COMMIT_VALID
    case WriteBody => ok && s.writeOffset <= 63 && slot[..s.writeOffset] == body[..s.writeOffset]
    case ReadbackBody => ok && slot[..63] == body
    case VerifyBody => ok && s.readback[..63] == body
    case VerifyCommit => ok && slot[63] == COMMIT_VALID
    case CheckCommit => ok && s.ioByte == COMMIT_VALID
    case Invalidate | Commit | Complete => ok
    case Failed => !ok
    case _ => false
  }

  lemma CleanDependsOn(s: Service, t: Service, m: Media, ok: bool)
    requires |m| == MEDIA_SIZE && Buffers(s) && Buffers(t) && PhaseAgrees(s, t)
    ensures Clean(s, m, ok) == Clean(t, m, ok)
  {
    hide Choosable, SlotAt;
  }

  // ---------- Operations that complete ----------

  predicate Volumes(s: Service, m: Media) {
    |m| == MEDIA_SIZE && Shape(s) && TargetOk(s) && IsVolumeCommit(s)
  }

  /** Reading changes nothing on the media, and a byte read back is the byte there. */
  lemma ReadArrivesClean(s: Service, m: Media, received: seq<uint8>, ok: bool)
    requires Volumes(s, m) && Clean(s, m, ok) && Expected(s).Some? && Expected(s).value.Read?
    requires CompleteEffect(Expected(s).value, m, m, received)
    ensures Buffers(Arrived(s, received)) && Clean(Arrived(s, received), m, ok)
  {
    ReceiveKeeps(s, received);
    if s.state == VerifyInvalidate || s.state == VerifyCommit {
      SlotSlice(m, s.targetSlot, 63, 1);
      assert received == SlotAt(m, s.targetSlot)[63..64];
      assert received[0] == SlotAt(m, s.targetSlot)[63];
    }
    hide SlotAt, Choosable, Overlaid;
  }

  lemma CommitByteArrivesClean(s: Service, m: Media, m': Media, ok: bool)
    requires Volumes(s, m) && Clean(s, m, ok) && (s.state == Invalidate || s.state == Commit)
    requires CompleteEffect(Expected(s).value, m, m', [])
    ensures |m'| == MEDIA_SIZE && Buffers(Arrived(s, [])) && Clean(Arrived(s, []), m', ok)
  {
    var b := if s.state == Invalidate then COMMIT_INVALID else COMMIT_VALID;
    SplicedSlot(m, m', s.targetSlot, 63, [b]);
    SplicedByte(SlotAt(m, s.targetSlot), b);
    hide SlotAt, Choosable, Spliced;
  }

  lemma BodyArrivesClean(s: Service, m: Media, m': Media, ok: bool)
    requires Volumes(s, m) && Clean(s, m, ok) && s.state == WriteBody && Expected(s).Some?
    requires CompleteEffect(Expected(s).value, m, m', [])
    ensures |m'| == MEDIA_SIZE && Buffers(Arrived(s, [])) && Clean(Arrived(s, []), m', ok)
  {
    var (at, data) := (s.writeOffset, Expected(s).value.data);
    SplicedSlot(m, m', s.targetSlot, at, data);
    FrontGrows(SlotAt(m, s.targetSlot), s.active.buffer[..63], at, data);
    hide SlotAt, Choosable, Spliced;
  }

  lemma FrontGrows(slot: Slot, body: Slot, at: nat, data: seq<uint8>)
    requires |slot| == 64 && |body| == 63 && at + |data| <= 63 && data == body[at..at + |data|] && slot[..at] == body[..at]
    ensures Spliced(slot, at, data)[..at + |data|] == body[..at + |data|]
  {
    assert Spliced(slot, at, data)[..at + |data|] == slot[..at] + data;
    assert body[..at + |data|] == body[..at] + body[at..at + |data|];
  }

  lemma ArrivesClean(s: Service, m: Media, m': Media, received: seq<uint8>, ok: bool)
    requires Volumes(s, m) && Clean(s, m, ok) && Expected(s).Some?
    requires CompleteEffect(Expected(s).value, m, m', received)
    ensures |m'| == MEDIA_SIZE && Buffers(Arrived(s, received)) && Clean(Arrived(s, received), m', ok)
  {
    if Expected(s).value.Read? {
      ReadArrivesClean(s, m, received, ok);
    } else {
      assert Arrived(s, received) == Arrived(s, []);
      hide Clean, Arrived, Shape, TargetOk;
      if s.state == WriteBody {
        BodyArrivesClean(s, m, m', ok);
      } else {
        CommitByteArrivesClean(s, m, m', ok);
      }
    }
  }

  // ---------- Turns ----------

  lemma ChoosingStaysClean(s: Service, m: Media, e: Entry, ok: bool)
    requires Volumes(s, m) && VolumePhase(s, m) && Clean(s, m, ok) && s.state == PrepareTarget && IsCandidate(s.active, e)
    ensures Buffers(ChooseTargetSlot(s)) && Clean(ChooseTargetSlot(s), m, ok)
  {
    ScansAreChoice(s, m, e);
    ChosenState(s, Choice(m));
    assert ok == (ChooseTarget(Choice(m)) != NoSlot);
    hide ChooseTargetSlot, IsCandidate, SlotAt, VolumePhase, Choice, Shape, TargetOk;
  }

  lemma ChosenState(s: Service, c: Selection)
    requires Shape(s) && s.state == PrepareTarget
    requires Select(s.scanA[..s.slotSize], s.scanB[..s.slotSize], s.active.kind, s.active.buffer[5], Read16(s.active.buffer, 6)) == c
    ensures var t := ChooseTargetSlot(s);
      Buffers(t) && t.state == if ChooseTarget(c) == NoSlot then Failed else Invalidate
  {
    hide Select, Read16, ChooseTarget;
  }

  /** The last step of reading back sees what was written, and so the body passes its check. */
  lemma ReadBackStaysClean(s: Service, m: Media, ok: bool)
    requires Volumes(s, m) && VolumePhase(s, m) && Clean(s, m, ok) && s.state == ReadbackBody && Expected(s).None?
    ensures Clean(s.(state := VerifyBody), m, ok)
  {
    assert s.slotSize == 64 && s.writeOffset == 63;
    hide SlotAt, Expendable, Expected, Shape;
  }

  lemma WrittenStaysClean(s: Service, m: Media, ok: bool)
    requires Volumes(s, m) && Clean(s, m, ok) && s.state == WriteBody && Expected(s).None?
    ensures Clean(s.(writeOffset := 0, state := ReadbackBody), m, ok)
  {
    assert s.slotSize == 64 && s.writeOffset == 63;
    hide SlotAt, Expected, Shape;
    assert s.active.buffer[..63][..63] == s.active.buffer[..63];
  }

  lemma CheckedStaysClean(s: Service, m: Media, ok: bool)
    requires Volumes(s, m) && Clean(s, m, ok)
    requires s.state == CheckInvalidate || s.state == VerifyBody || s.state == CheckCommit
    ensures Buffers(InternalStep(s)) && Clean(InternalStep(s), m, ok)
  {
    assert s.slotSize == 64 && Buffers(s);
    hide SlotAt, Shape, TargetOk;
    if s.state == CheckInvalidate {
      assert InternalStep(s) == s.(writeOffset := 0, state := WriteBody);
    } else if s.state == VerifyBody {
      assert InternalStep(s) == s.(state := Commit);
    } else {
      assert InternalStep(s) == FinishCommit(s, CommitOk);
    }
    hide InternalStep;
  }

  /** The steps without I/O, once their last scan, body or byte is in. */
  lemma StepStaysClean(s: Service, m: Media, e: Entry, ok: bool)
    requires Volumes(s, m) && VolumePhase(s, m) && Clean(s, m, ok) && Expected(s).None? && IsCandidate(s.active, e)
    ensures Buffers(InternalStep(s)) && Clean(InternalStep(s), m, ok)
  {
    assert s.state == PrepareTarget || s.state == ReadbackBody || s.state == WriteBody
        || s.state == CheckInvalidate || s.state == VerifyBody || s.state == CheckCommit;
    assert Shape(s) && Buffers(s);
    hide ChooseTargetSlot, Clean, IsCandidate, VolumePhase, Shape, TargetOk, Expected;
    if s.state == PrepareTarget {
      ChoosingStaysClean(s, m, e, ok);
    } else if s.state == ReadbackBody {
      ReadBackStaysClean(s, m, ok);
    } else if s.state == WriteBody {
      WrittenStaysClean(s, m, ok);
    } else {
      CheckedStaysClean(s, m, ok);
    }
  }

  // ---------- Runs without a fault ----------

  ghost predicate CleanWorld(w: World, ok: bool) {
    && |w.media| == MEDIA_SIZE && !IoFailed(w.service) && Buffers(Logical(w.service))
    && Clean(Logical(w.service), w.media, ok)
  }

  /** The port accepts, the clock is not about to wrap, operations complete, and the power stays on. */
  predicate Smooth(w: World, e: Event) {
    match e
    case PowerLoss(_) => false
    case Turn(now, accepted) => accepted && UINT64_MAX - now >= w.service.ioTimeoutUs
    case IoDone(_, _, _, _) => w.flight.Some? && IsComplete(Reported(w, e))
    case _ => true
  }

  lemma SmoothIoDone(w: World, e: Event, ok: bool)
    requires Inv(w) && IsVolumeCommit(w.service) && CleanWorld(w, ok) && Enabled(w, e) && e.IoDone? && Smooth(w, e)
    ensures CleanWorld(Next(w, e), ok)
  {
    assert CoreInv(w.service, w.media, w.flight);
    assert Effect(w.flight.value, Reported(w, e), w.media, e.after, e.received);
    CompletionTaken(w.service, w.media, w.flight, Reported(w, e), e.received);
    hide Inv, CoreInv, Effect, CleanWorld, Reporting, OnIoCompletion, Receive, Tick, SubmitCheckpoint;
    ReportedClean(w.service, w.media, w.flight, Reported(w, e), e.received, e.after, ok);
    assert Next(w, e) == w.(service := Reporting(w.service, Reported(w, e), e.received), media := e.after, flight := None);
    MadeClean(Next(w, e), ok);
  }

  lemma MadeClean(w: World, ok: bool)
    requires |w.media| == MEDIA_SIZE && !IoFailed(w.service) && Buffers(Logical(w.service)) && Clean(Logical(w.service), w.media, ok)
    ensures CleanWorld(w, ok)
  {
  }

  lemma ReportedClean(s: Service, before: Media, flight: Option<Request>, c: IoCompletion, received: seq<uint8>, m: Media, ok: bool)
    requires CoreInv(s, before, flight) && flight.Some? && Effect(flight.value, c, before, m, received) && IsComplete(c)
    requires IsVolumeCommit(s) && |before| == MEDIA_SIZE && Buffers(Logical(s)) && Clean(Logical(s), before, ok)
    ensures Buffers(s) && |m| == MEDIA_SIZE
    ensures var r := Reporting(s, c, received);
      !IoFailed(r) && Buffers(Logical(r)) && Clean(Logical(r), m, ok)
  {
    FlightFacts(s, before, flight);
    NotTaken(s, before, flight);
    EffectComplete(flight.value, c, before, m, received);
    ReportingKeeps(s, c, received);
    LogicalIsArrived(s, c, received);
    assert Reporting(s, c, received).io == s.io.(completion := c, completed := true);
    hide Phase, Expected, SuccessState, Advance, Reporting, Arrived, CoreInv, Effect, CompleteEffect, TargetOk, Clean, Logical;
    ArrivesClean(s, before, m, received, ok);
    CleanDependsOn(Arrived(s, received), Logical(Reporting(s, c, received)), m, ok);
  }

  lemma NotTaken(s: Service, m: Media, flight: Option<Request>)
    requires CoreInv(s, m, flight) && flight.Some?
    ensures Logical(s) == s
  {
    hide Phase, Expected, SuccessState, Advance, TargetOk;
  }

  lemma SmoothTurn(w: World, e: Event, ok: bool)
    requires Inv(w) && IsVolumeCommit(w.service) && CleanWorld(w, ok) && e.Turn? && Smooth(w, e)
    ensures CleanWorld(Next(w, e), ok)
  {
    var s := w.service;
    CommitFacts(w);
    ActiveIsLogged(w);
    assert IsCandidate(s.active, w.log[w.activeId]) by { hide CoreInv; }
    assert CoreInv(s, w.media, w.flight);
    hide Inv, CoreInv, IsCandidate;
    TickStaysClean(s, w.media, w.flight, w.log[w.activeId], e.now, ok);
    var t := Tick(s, e.now, e.accepted).0;
    NextHasService(w, e);
    hide Tick, Next, Clean, Logical;
    MadeClean(Next(w, e), ok);
  }

  lemma NextHasService(w: World, e: Event)
    requires e.Turn? && Shape(w.service)
    ensures Next(w, e).service == Tick(w.service, e.now, e.accepted).0 && Next(w, e).media == w.media
  {
    hide Shape, Tick;
  }

  lemma TickStaysClean(s: Service, m: Media, flight: Option<Request>, e: Entry, now: uint64, ok: bool)
    requires CoreInv(s, m, flight) && Shape(s) && IsVolumeCommit(s) && IsCandidate(s.active, e) && !IoFailed(s)
    requires |m| == MEDIA_SIZE && Buffers(Logical(s)) && Clean(Logical(s), m, ok)
    requires UINT64_MAX - now >= s.ioTimeoutUs && !s.completionReady
    ensures var t := Tick(s, now, true).0;
      !IoFailed(t) && Buffers(Logical(t)) && Clean(Logical(t), m, ok)
  {
    assert Phase(Logical(s), m) && Volumes(s, m) && (s.io.completed ==> s.io.pending);
    assert !MayPromote(s);
    hide *;
    if s.io.pending {
      ConsumingTurn(s, now);
    } else {
      IdleIsLogical(s);
      if Expected(s).Some? {
        SubmittedClean(s, m, now, ok);
      } else {
        PhaseOfVolume(s, m);
        SteppedClean(s, m, e, now, ok);
      }
    }
  }

  lemma ConsumingTurn(s: Service, now: uint64)
    requires Shape(s) && s.io.pending && !IoFailed(s)
    ensures var t := Tick(s, now, true).0; !IoFailed(t) && Logical(t) == Logical(s)
  {
    hide Shape, InternalStep, Expected, PromotePending, SubmitIo;
  }

  lemma SubmittedClean(s: Service, m: Media, now: uint64, ok: bool)
    requires Volumes(s, m) && Clean(s, m, ok) && !s.io.pending && Expected(s).Some? && !MayPromote(s)
    requires UINT64_MAX - now >= s.ioTimeoutUs
    ensures var t := Tick(s, now, true).0;
      !IoFailed(t) && Buffers(Logical(t)) && Clean(Logical(t), m, ok)
  {
    assert Shape(s) && TargetOk(s) && IsCommit(s);
    hide *;
    ExpectedInProgress(s);
    StagedClean(s, m, ok);
    SubmittingTick(s, now);
  }

  lemma SubmittingTick(s: Service, now: uint64)
    requires Shape(s) && !s.io.pending && Expected(s).Some? && Advance(s) >= 0 && !MayPromote(s)
    requires UINT64_MAX - now >= s.ioTimeoutUs
    ensures Tick(s, now, true).0 == Staged(WithIoByte(s), SuccessState(s.state), Advance(s), true)
  {
    hide Shape, Expected, SuccessState, Advance, Staged, InternalStep, PromotePending;
  }

  lemma SteppedClean(s: Service, m: Media, e: Entry, now: uint64, ok: bool)
    requires Volumes(s, m) && VolumePhase(s, m) && Clean(s, m, ok) && Expected(s).None? && IsCandidate(s.active, e)
    requires !s.io.pending && !MayPromote(s)
    ensures var t := Tick(s, now, true).0;
      !IoFailed(t) && Buffers(Logical(t)) && Clean(Logical(t), m, ok)
  {
    StepStaysClean(s, m, e, ok);
    assert Shape(s);
    hide *;
    StepKeepsIo(s);
    SteppingTick(s, now);
    IdleIsLogical(InternalStep(s));
  }

  lemma SteppingTick(s: Service, now: uint64)
    requires Shape(s) && !s.io.pending && Expected(s).None? && !MayPromote(s)
    ensures Tick(s, now, true).0 == InternalStep(s)
  {
    hide Shape, Expected, SubmitIo, InternalStep, PromotePending;
  }

  lemma IdleIsLogical(s: Service)
    requires !s.io.pending
    ensures !IoFailed(s) && Logical(s) == s
  {
  }

  lemma PhaseOfVolume(s: Service, m: Media)
    requires |m| == MEDIA_SIZE && Buffers(s) && Phase(s, m) && IsVolumeCommit(s)
    ensures VolumePhase(s, m)
  {
    hide VolumePhase, RestorePhase;
  }

  lemma StagedClean(s: Service, m: Media, ok: bool)
    requires Volumes(s, m) && Clean(s, m, ok) && !s.io.pending && Expected(s).Some? && Advance(s) >= 0
    ensures var t := Staged(WithIoByte(s), SuccessState(s.state), Advance(s), true);
      !IoFailed(t) && Logical(t) == t && Buffers(t) && Clean(t, m, ok)
  {
    assert Buffers(s);
    hide SlotAt, Choosable, Expected, SuccessState, Advance, Shape, TargetOk;
  }

  lemma StepKeepsIo(s: Service)
    requires Shape(s)
    ensures InternalStep(s).io == s.io
  {
    hide Select, Decode, SelectVolume, Blank96, Zeros;
  }

  /** Whatever else happens while a commit is under way touches nothing of it. */
  lemma OthersAgree(w: World, e: Event)
    requires Shape(w.service) && ReadyOk(w.service) && IsCommit(w.service) && !e.Turn? && !e.PowerLoss? && !e.IoDone?
    requires e.StrayCompletion? ==> !Matches(w.service, e.completion)
    ensures var (s, t) := (w.service, Next(w, e).service);
      PhaseAgrees(s, t) && t.io == s.io && Buffers(t) && Next(w, e).media == w.media
  {
    hide Tick, Receive;
  }

  lemma SmoothOther(w: World, e: Event, ok: bool)
    requires Inv(w) && IsVolumeCommit(w.service) && CleanWorld(w, ok) && Enabled(w, e)
    requires !e.Turn? && !e.PowerLoss? && !e.IoDone?
    ensures CleanWorld(Next(w, e), ok) && Next(w, e).service.active == w.service.active
  {
    CommitFacts(w);
    assert e.StrayCompletion? ==> !Matches(w.service, e.completion);
    hide Inv, Enabled, Clean, Shape, ReadyOk, Next, Logical, PhaseAgrees, Buffers;
    OthersAgree(w, e);
    AgreeingClean(w.service, Next(w, e).service, w.media, ok);
  }

  lemma AgreeingClean(s: Service, t: Service, m: Media, ok: bool)
    requires |m| == MEDIA_SIZE && Buffers(Logical(s)) && PhaseAgrees(s, t) && t.io == s.io && Buffers(t)
    requires !IoFailed(s) && Clean(Logical(s), m, ok)
    ensures !IoFailed(t) && Buffers(Logical(t)) && Clean(Logical(t), m, ok) && t.active == s.active
  {
    assert Buffers(Logical(t)) && PhaseAgrees(Logical(s), Logical(t));
    CleanDependsOn(Logical(s), Logical(t), m, ok);
    hide Clean, Logical;
  }

  lemma TurnKeepsActive(s: Service, now: uint64, accepted: bool)
    requires Shape(s) && IsCommit(s)
    ensures Tick(s, now, accepted).0.active == s.active
  {
    StepKeepsActive(s);
    ConsumeKeepsActive(s);
    if Expected(s).Some? && Advance(s) >= 0 {
      SubmitKeepsActive(WithIoByte(s), Expected(s).value, SuccessState(s.state), Advance(s), now, accepted);
    }
    assert WithIoByte(s).active == s.active && !MayPromote(s);
    hide InternalStep, Shape, Expected, Advance, SuccessState, PromotePending, ConsumeIoCompletion, SubmitIo, WithIoByte, MayPromote;
  }

  lemma ConsumeKeepsActive(s: Service)
    ensures ConsumeIoCompletion(s).active == s.active
  {
  }

  lemma SubmitKeepsActive(s: Service, request: Request, successState: State, advance: nat, now: uint64, accepted: bool)
    ensures SubmitIo(s, request, successState, advance, now, accepted).0.active == s.active
  {
  }

  lemma StepKeepsActive(s: Service)
    requires Shape(s)
    ensures InternalStep(s).active == s.active
  {
    hide Select, ChooseTarget, RestoreOutcome, Read16, SlotAddress;
  }

  lemma CompletionKeepsActive(w: World, e: Event)
    requires Shape(w.service) && e.IoDone?
    ensures Next(w, e).service.active == w.service.active
  {
    ReceiveKeeps(w.service, e.received);
    hide Receive, Tick, SubmitCheckpoint;
  }

  lemma SmoothStep(w: World, e: Event, ok: bool)
    requires Inv(w) && IsVolumeCommit(w.service) && CleanWorld(w, ok) && Enabled(w, e) && Smooth(w, e)
    ensures CleanWorld(Next(w, e), ok) && Next(w, e).service.active == w.service.active
  {
    CommitFacts(w);
    hide *;
    if e.Turn? {
      SmoothTurn(w, e, ok);
      TurnKeepsActive(w.service, e.now, e.accepted);
      NextHasService(w, e);
    } else if e.IoDone? {
      SmoothIoDone(w, e, ok);
      CompletionKeepsActive(w, e);
    } else {
      SmoothOther(w, e, ok);
    }
  }

  ghost predicate SmoothRun(w: World, events: seq<Event>)
    decreases |events|
  {
    events == [] || (Shape(w.service) && Smooth(w, events[0]) && SmoothRun(Next(w, events[0]), events[1..]))
  }

  lemma {:induction false} SmoothRunStaysClean(w: World, events: seq<Event>, end: World, ok: bool)
    requires Inv(w) && w.service.active.kind == TYPE_VOLUME && CleanWorld(w, ok)
    requires CommitRun(w, events, end) && SmoothRun(w, events)
    ensures CleanWorld(end, ok) && Inv(end)
    decreases |events|
  {
    hide Inv, Next, Enabled, CleanWorld, Smooth;
    if events != [] {
      StepHolds(w, events[0]);
      SmoothStep(w, events[0], ok);
      SmoothRunStaysClean(Next(w, events[0]), events[1..], end, ok);
    }
  }

  lemma ScanStartsClean(w: World)
    requires Inv(w) && w.service.state == ScanA && !w.service.io.pending
    ensures CleanWorld(w, Choosable(w.media)) && IsCommit(w.service)
  {
    hide Choosable, Phase, ActiveOk, PendingOk, Durable;
  }

  lemma EndsClean(w: World, ok: bool)
    requires Inv(w) && CleanWorld(w, ok) && !IsCommit(w.service)
    ensures w.service.state == if ok then Complete else Failed
  {
    assert Shape(w.service) && IoOfState(w.service) by { hide Clean, Phase, ActiveOk, PendingOk, Durable, ExpectedOf, AdvanceOf, SuccessState; }
    hide Inv;
    CleanAtRest(w.service, w.media, ok);
  }

  lemma CleanAtRest(s: Service, m: Media, ok: bool)
    requires |m| == MEDIA_SIZE && IoOfState(s) && Buffers(Logical(s)) && Clean(Logical(s), m, ok) && !IsCommit(s)
    ensures s.state == if ok then Complete else Failed
  {
    RestoringIsNotClean(s, m, ok);
    assert !s.io.pending ==> Logical(s) == s;
    hide Choosable, SlotAt, Expected, SuccessState, Advance, Logical;
  }

  lemma RestoringIsNotClean(s: Service, m: Media, ok: bool)
    requires |m| == MEDIA_SIZE && Buffers(Logical(s)) && !IsCommit(s)
    ensures s.io.pending && IoOfState(s) ==> !Clean(Logical(s), m, ok)
  {
    assert IoOfState(s) && s.io.pending ==> IsRestore(s.state) && IsRestore(s.io.successState);
    hide IoOfState, Choosable, SlotAt;
  }

  // ---------- Acknowledgement ----------

  /** A volume commit that completes is acknowledged by the step that completes it. */
  lemma CompletionIsAcked(w: World, e: Event)
    requires Inv(w) && IsVolumeCommit(w.service) && Enabled(w, e) && !e.PowerLoss?
    ensures Shape(w.service)
    ensures Next(w, e).activeId == w.activeId && (Next(w, e).service.state == Complete ==> Next(w, e).acked == Some(w.activeId))
  {
    CommitFacts(w);
    if e.Turn? {
      TurnKeepsPending(w.service, e.now, e.accepted);
      hide Inv, Enabled, TargetOk, IoOfState;
      TurnIsAcked(w, e);
    } else {
      StaysPut(w, e);
      hide Inv, Enabled, TargetOk, IoOfState;
      OthersKeepActiveId(w, e);
    }
  }

  lemma TurnIsAcked(w: World, e: Event)
    requires Shape(w.service) && IsVolumeCommit(w.service) && e.Turn?
    requires Tick(w.service, e.now, e.accepted).0.pending == w.service.pending
    ensures Next(w, e).activeId == w.activeId && (Next(w, e).service.state == Complete ==> Next(w, e).acked == Some(w.activeId))
  {
    hide Tick, Shape;
  }

  lemma OthersKeepActiveId(w: World, e: Event)
    requires Shape(w.service) && IsCommit(w.service) && !e.Turn? && SamePlace(w.service, Next(w, e).service)
    ensures Next(w, e).activeId == w.activeId && Next(w, e).service.state != Complete
  {
    hide Tick, Shape, Receive, OnIoCompletion;
  }

  lemma TurnKeepsPending(s: Service, now: uint64, accepted: bool)
    requires Shape(s) && TargetOk(s) && IsCommit(s) && !s.completionReady && IoOfState(s)
    ensures Tick(s, now, accepted).0.pending == s.pending
  {
    var move := TickMoves(s, now, accepted);
    hide Tick, Shape, TargetOk, IoOfState, Expected, SuccessState, Advance;
  }

  lemma {:induction false} CompleteRunIsAcked(w: World, events: seq<Event>, end: World)
    requires Inv(w) && IsVolumeCommit(w.service) && CommitRun(w, events, end) && SmoothRun(w, events) && CleanWorld(w, true)
    requires end.service.state == Complete
    ensures end.acked == Some(w.activeId)
    decreases |events|
  {
    hide Inv, Next, Enabled, CleanWorld, Smooth;
    if events != [] {
      var v := Next(w, events[0]);
      StepHolds(w, events[0]);
      CompletionIsAcked(w, events[0]);
      SmoothStep(w, events[0], true);
      if events[1..] != [] {
        CompleteRunIsAcked(v, events[1..], end);
      }
    }
  }

  /** A volume commit that meets no fault ends acknowledged exactly if the media offered a target when it began;
      CommitEnds says that it does end. */
  lemma FaultFreeCommitSucceedsIff(w: World, events: seq<Event>, end: World)
    requires Inv(w) && w.service.state == ScanA && !w.service.io.pending && w.service.active.kind == TYPE_VOLUME
    requires CommitRun(w, events, end) && SmoothRun(w, events) && !IsCommit(end.service)
    ensures end.service.state == Complete <==> Choosable(w.media)
    ensures end.service.state == Failed <==> !Choosable(w.media)
    ensures Choosable(w.media) ==> end.acked == Some(w.activeId)
  {
    ScanStartsClean(w);
    SmoothRunStaysClean(w, events, end, Choosable(w.media));
    EndsAsClean(w, events, end);
  }

  lemma EndsAsClean(w: World, events: seq<Event>, end: World)
    requires Inv(w) && IsVolumeCommit(w.service) && |w.media| == MEDIA_SIZE && CleanWorld(w, Choosable(w.media))
    requires CommitRun(w, events, end) && SmoothRun(w, events) && !IsCommit(end.service)
    requires Inv(end) && CleanWorld(end, Choosable(w.media))
    ensures end.service.state == if Choosable(w.media) then Complete else Failed
    ensures Choosable(w.media) ==> end.acked == Some(w.activeId)
  {
    hide *;
    EndsClean(end, Choosable(w.media));
    if Choosable(w.media) {
      CompleteRunIsAcked(w, events, end);
    }
  }

  // ---------- And there is always such a run ----------

  /** Every operation a commit submits lies within the media. */
  lemma ExpectedInRange(s: Service)
    requires Shape(s) && TargetOk(s) && IsCommit(s) && Expected(s).Some?
    ensures Expected(s).value.offset + Expected(s).value.Length() <= MEDIA_SIZE
  {
  }

  /** An operation that completes, as an effect on the media and on the reader's buffer. */
  lemma CompletesOn(r: Request, token: Token, m: Media) returns (after: Media, received: seq<uint8>)
    requires |m| == MEDIA_SIZE && r.offset + r.Length() <= MEDIA_SIZE
    ensures Effect(r, IoCompletion(token, IoOk, r.Length(), r.Length()), m, after, received)
  {
    match r
    case Read(offset, size) =>
      after, received := m, m[offset..offset + size];
    case Write(offset, data) =>
      after, received := Spliced(m, offset, data), [];
  }

  /** In every commit a fault-free event is possible that makes progress. */
  lemma SmoothEventExists(w: World) returns (e: Event)
    requires Inv(w) && IsCommit(w.service)
    ensures |w.media| == MEDIA_SIZE && Shape(w.service) && (e.Turn? || e.IoDone?)
    ensures Enabled(w, e) && Smooth(w, e) && Progress(w, e)
  {
    CommitFacts(w);
    NeverStuck(w, 0, true);
    assert CoreInv(w.service, w.media, w.flight);
    if w.flight.Some? {
      FlightFacts(w.service, w.media, w.flight);
      hide Inv, CoreInv, TargetOk, Phase, Effect, Expected, IoOfState;
      ExpectedInRange(w.service);
      var r := w.flight.value;
      var after, received := CompletesOn(r, w.service.io.token, w.media);
      e := IoDone(IoOk, r.Length(), after, received);
    } else {
      e := Turn(0, true);
    }
  }

  /** From every commit there is a fault-free run to its end, so FaultFreeCommitSucceedsIff is never empty. */
  lemma {:induction false} FaultFreeRunExists(w: World) returns (events: seq<Event>, end: World)
    requires Inv(w) && IsCommit(w.service)
    ensures CommitRun(w, events, end) && SmoothRun(w, events) && !IsCommit(end.service) && end.log == w.log
    decreases Measure(w.service)
  {
    var e := SmoothEventExists(w);
    ProgressDescends(w, e);
    hide *;
    var v := Next(w, e);
    var rest;
    if IsCommit(v.service) {
      rest, end := FaultFreeRunExists(v);
    } else {
      rest, end := [], v;
      EmptyRun(v);
    }
    events := [e] + rest;
    RunGrows(w, e, rest, end);
  }

  lemma ProgressDescends(w: World, e: Event)
    requires Inv(w) && IsCommit(w.service) && Enabled(w, e) && (e.Turn? || e.IoDone?) && Progress(w, e)
    ensures Shape(w.service) && Inv(Next(w, e)) && Next(w, e).log == w.log
    ensures IsCommit(Next(w, e).service) ==> 0 <= Measure(Next(w, e).service)
    ensures Measure(Next(w, e).service) < Measure(w.service) && 0 <= Measure(w.service)
  {
    ShapeMeasured(w);
    StepHolds(w, e);
    StepAdvances(w, e);
    StepLogsNothing(w, e);
    var v := Next(w, e);
    hide Inv, Next, Enabled, Shape, Measure, IosLeft;
    if IsCommit(v.service) {
      ShapeMeasured(v);
    }
  }

  lemma EmptyRun(w: World)
    ensures CommitRun(w, [], w) && SmoothRun(w, [])
  {
  }

  /** A fault-free event of a commit in front of a fault-free run. */
  lemma RunGrows(w: World, e: Event, rest: seq<Event>, end: World)
    requires |w.media| == MEDIA_SIZE && Shape(w.service) && IsCommit(w.service) && !e.PowerLoss? && Enabled(w, e) && Smooth(w, e)
    requires CommitRun(Next(w, e), rest, end) && SmoothRun(Next(w, e), rest)
    ensures CommitRun(w, [e] + rest, end) && SmoothRun(w, [e] + rest)
  {
    hide Shape, Next, Enabled, Smooth;
    assert ([e] + rest)[1..] == rest;
  }

  lemma StepLogsNothing(w: World, e: Event)
    requires Shape(w.service) && (e.Turn? || e.IoDone?)
    ensures Next(w, e).log == w.log
  {
    hide Shape, Tick, Receive, OnIoCompletion;
  }

  lemma ShapeMeasured(w: World)
    requires Inv(w) && IsCommit(w.service)
    ensures Shape(w.service) && Measure(w.service) >= 0
  {
    CommitFacts(w);
    MeasureBound(w.service);
  }

  lemma {:induction false} CommitRunIsRun(w: World, events: seq<Event>, end: World)
    requires CommitRun(w, events, end)
    ensures IsRun(w, events, end)
    decreases |events|
  {
    hide Next, Enabled, Shape;
    if events != [] {
      CommitRunIsRun(Next(w, events[0]), events[1..], end);
    }
  }

  /** On any media that offer a target, every encodable record that is ahead of them can be committed and acknowledged
      by a service that has just started. */
  lemma RecordCanBeAcknowledged(w: World, sequence: uint32, volume: Volume, version: uint64)
      returns (events: seq<Event>, end: World)
    requires Start(w) && Choosable(w.media) && volume.RemaindersInRange() && AheadOfMedia(sequence, w.media)
    ensures IsRun(w, events, end) && end.acked == Some(0) && end.log == [Entry(sequence, volume)]
  {
    hide *;
    var e := Submit(TYPE_VOLUME, sequence, VolumeSlot(sequence, volume, COMMIT_INVALID), version, volume);
    FirstCommit(w, sequence, volume, version);
    FirstCommitHolds(w, e);
    var v := Next(w, e);
    var rest;
    rest, end := FaultFreeRunExists(v);
    FaultFreeCommitSucceedsIff(v, rest, end);
    CommitRunIsRun(v, rest, end);
    events := [e] + rest;
    EventInFront(w, e, rest, end);
  }

  lemma EventInFront(w: World, e: Event, rest: seq<Event>, end: World)
    requires |w.media| == MEDIA_SIZE && Shape(w.service) && Enabled(w, e) && IsRun(Next(w, e), rest, end)
    ensures IsRun(w, [e] + rest, end)
  {
    hide Shape, Next, Enabled;
    assert ([e] + rest)[1..] == rest;
  }

  lemma FirstCommitHolds(w: World, e: Event)
    requires Start(w) && Enabled(w, e)
    ensures Inv(Next(w, e)) && |w.media| == MEDIA_SIZE
  {
    RestartHolds(w);
    hide Inv, Next, Enabled;
    StepHolds(w, e);
  }

  lemma FirstCommit(w: World, sequence: uint32, volume: Volume, version: uint64)
    requires Start(w) && volume.RemaindersInRange() && AheadOfMedia(sequence, w.media)
    ensures |w.media| == MEDIA_SIZE && Shape(w.service)
    ensures var e := Submit(TYPE_VOLUME, sequence, VolumeSlot(sequence, volume, COMMIT_INVALID), version, volume);
      && Enabled(w, e)
      && var v := Next(w, e);
         && IsCommit(v.service) && v.service.state == ScanA && !v.service.io.pending && v.service.active.kind == TYPE_VOLUME
         && v.log == [Entry(sequence, volume)] && v.activeId == 0 && v.media == w.media
  {
    hide VolumeSlot, AheadOfMedia, Zeros, Tick, Receive;
  }

  // ---------- A restore can always be had ----------

  predicate Restoring(s: Service) {
    s.state == RestoreScanA || s.state == RestoreScanB || s.state == RestoreDecode
  }

  function RestoreMeasure(s: Service): nat {
    match s.state
    case RestoreScanA => 9 + IoPhase(s)
    case RestoreScanB => 6 + IoPhase(s)
    case RestoreDecode => 3
    case _ => 0
  }

  /** A fault-free event of a restore, and what it leads to. */
  ghost predicate RestoreMoves(w: World, e: Event)
    requires Shape(w.service)
  {
    var v := Next(w, e);
    && v.log == w.log && v.acked == w.acked && !IoFailed(v.service) && RestoreMeasure(v.service) < RestoreMeasure(w.service)
    && (Restoring(v.service) || v.service.state == RestoreComplete)
  }

  lemma RestoreEventExists(w: World) returns (e: Event)
    requires Inv(w) && Restoring(w.service) && !IoFailed(w.service)
    ensures |w.media| == MEDIA_SIZE && Shape(w.service) && Enabled(w, e) && RestoreMoves(w, e)
  {
    assert CoreInv(w.service, w.media, w.flight);
    RestoreFacts(w.service, w.media, w.flight);
    if w.flight.Some? {
      var r := w.flight.value;
      hide Inv, CoreInv, Effect, RestoreMoves, IoOfState, Restoring;
      var after, received := CompletesOn(r, w.service.io.token, w.media);
      e := IoDone(IoOk, r.Length(), after, received);
      CompletionTaken(w.service, w.media, w.flight, Reported(w, e), received);
      ReadCompletes(w, e);
    } else {
      e := Turn(0, true);
      hide Inv, CoreInv, RestoreMoves;
      RestoreTurn(w, e);
    }
  }

  lemma RestoreFacts(s: Service, m: Media, flight: Option<Request>)
    requires CoreInv(s, m, flight) && Restoring(s)
    ensures |m| == MEDIA_SIZE && Shape(s) && IoOfState(s) && (s.io.completed ==> s.io.pending)
    ensures flight.Some? <==> Waiting(s)
    ensures flight.Some? ==> s.state != RestoreDecode && flight.value.offset + flight.value.Length() <= MEDIA_SIZE
    ensures s.state == RestoreDecode ==> !s.io.pending
  {
    hide Phase, Shape, TargetOk, ReadyOk;
  }

  lemma ReadCompletes(w: World, e: Event)
    requires Shape(w.service) && Restoring(w.service) && w.service.state != RestoreDecode && e.IoDone? && w.flight.Some?
    requires Waiting(w.service) && IsComplete(Reported(w, e))
    requires OnIoCompletion(Receive(w.service, e.received), Reported(w, e)) == Reporting(w.service, Reported(w, e), e.received)
    ensures RestoreMoves(w, e)
  {
    ReceiveKeeps(w.service, e.received);
    hide Receive, Shape, OnIoCompletion;
  }

  lemma RestoreTurn(w: World, e: Event)
    requires Shape(w.service) && IoOfState(w.service) && Restoring(w.service) && !IoFailed(w.service) && e == Turn(0, true)
    requires !Waiting(w.service) && (w.service.io.completed ==> w.service.io.pending)
    requires w.service.state == RestoreDecode ==> !w.service.io.pending
    ensures RestoreMoves(w, e)
  {
    RestoreTick(w.service);
    hide Tick, Shape, IoOfState;
  }

  lemma RestoreTick(s: Service)
    requires Shape(s) && IoOfState(s) && Restoring(s) && !IoFailed(s) && !Waiting(s) && (s.io.completed ==> s.io.pending)
    requires s.state == RestoreDecode ==> !s.io.pending
    ensures var t := Tick(s, 0, true).0;
      && !IoFailed(t) && RestoreMeasure(t) < RestoreMeasure(s) && (Restoring(t) || t.state == RestoreComplete)
      && t.pending == s.pending
  {
    hide RestoreOutcome, Shape;
  }

  lemma {:induction false} RestoreRunExists(w: World) returns (events: seq<Event>, end: World)
    requires Inv(w) && (Restoring(w.service) || w.service.state == RestoreComplete) && !IoFailed(w.service)
    ensures IsRun(w, events, end) && Inv(end) && end.service.state == RestoreComplete
    ensures end.log == w.log && end.acked == w.acked
    decreases RestoreMeasure(w.service)
  {
    if w.service.state == RestoreComplete {
      events, end := [], w;
    } else {
      var e := RestoreEventExists(w);
      var v := Next(w, e);
      StepHolds(w, e);
      hide Inv, Next, Enabled, Shape, RestoreMeasure;
      var rest;
      rest, end := RestoreRunExists(v);
      events := [e] + rest;
      EventInFront(w, e, rest, end);
    }
  }

  /** At rest, with a record acknowledged, a restore can be started and ends with that record or a later one. */
  lemma AcknowledgedCanBeRestored(start: World, before: seq<Event>, w: World, k: nat)
      returns (events: seq<Event>, end: World)
    requires Start(start) && IsRun(start, before, w) && w.acked == Some(k)
    requires IsTerminal(w.service.state) && w.service.pending.None? && !w.service.completionReady
    ensures IsRun(w, events, end) && end.service.restoreReady && end.service.restoreStatus == RestoreOk
    ensures exists i :: k <= i < |end.log| && end.service.restored.volume == end.log[i].volume
                        && end.service.restored.sequence == end.log[i].sequence
  {
    RestartHolds(start);
    RunHolds(start, before, w);
    NothingInFlight(w);
    RestoreBegins(w);
    var v := Next(w, StartRestore);
    StepHolds(w, StartRestore);
    hide Inv, Next, Enabled, Shape, Start, Durable;
    var rest;
    rest, end := RestoreRunExists(v);
    events := [StartRestore] + rest;
    EventInFront(w, StartRestore, rest, end);
    AcknowledgedSurvives(start, before, w, events, end, k);
  }

  lemma RestoreBegins(w: World)
    requires Inv(w) && IsTerminal(w.service.state) && w.service.pending.None? && !w.service.completionReady
    requires !w.service.io.pending
    ensures |w.media| == MEDIA_SIZE && Shape(w.service) && Enabled(w, StartRestore)
    ensures var v := Next(w, StartRestore); v.service.state == RestoreScanA && !IoFailed(v.service) && v.log == w.log && v.acked == w.acked
  {
    hide Phase, ActiveOk, PendingOk, Durable, Tick, Receive;
  }
}
