/** How a commit ends: after a bounded number of steps, with exactly one completion, and having used exactly as many
    operations as its slot needs. */
module StorageProgress {
  import opened Bits
  import opened StorageRecord
  import opened AbSlot
  import opened StoragePort
  import opened StorageService
  import opened StorageSafety

  // ---------- A result waits until it is taken ----------

  /** No event but taking it, or a loss of power, touches a completion or a restored volume that is ready. */
  lemma StepKeepsResults(w: World, e: Event)
    requires Inv(w) && Enabled(w, e) && !e.PowerLoss?
    ensures var (s, t) := (w.service, Next(w, e).service);
      && (s.completionReady && !e.TakeCommit? ==> t.completionReady && t.lastCompletion == s.lastCompletion)
      && (s.restoreReady && !e.TakeRestore? ==>
            t.restoreReady && t.restored == s.restored && t.restoreStatus == s.restoreStatus)
  {
    assert ReadyOk(w.service) && Shape(w.service) && (w.service.io.pending ==> Expected(w.service).Some?);
    hide Inv, Enabled;
    KeptAtRest(w, e);
  }

  lemma KeptAtRest(w: World, e: Event)
    requires Shape(w.service) && ReadyOk(w.service) && (w.service.io.pending ==> Expected(w.service).Some?)
    requires !e.PowerLoss?
    ensures var (s, t) := (w.service, Next(w, e).service);
      && (s.completionReady && !e.TakeCommit? ==> t.completionReady && t.lastCompletion == s.lastCompletion)
      && (s.restoreReady && !e.TakeRestore? ==>
            t.restoreReady && t.restored == s.restored && t.restoreStatus == s.restoreStatus)
  {
    var s := w.service;
    if e.Turn? && (s.completionReady || s.restoreReady) {
      TickAtRest(s, e.now, e.accepted);
      hide Tick;
    } else if e.IoDone? {
      ReceiveKeeps(s, e.received);
      hide Receive, Tick;
    } else {
      hide Tick, Receive;
    }
    hide Shape, Expected;
  }

  lemma TickAtRest(s: Service, now: uint64, accepted: bool)
    requires Shape(s) && ReadyOk(s) && (s.completionReady || s.restoreReady) && (s.io.pending ==> Expected(s).Some?)
    ensures Tick(s, now, accepted) == (s, None)
  {
  }

  ghost predicate KeptUntil(w: World, events: seq<Event>, end: World) {
    var (s, t) := (w.service, end.service);
    && (s.completionReady && (forall e :: e in events ==> !e.TakeCommit?) ==>
          t.completionReady && t.lastCompletion == s.lastCompletion)
    && (s.restoreReady && (forall e :: e in events ==> !e.TakeRestore?) ==>
          t.restoreReady && t.restored == s.restored && t.restoreStatus == s.restoreStatus)
  }

  /** Over every run without a loss of power: a completion and a restored volume stay as they are until they are taken. */
  lemma {:induction false} ResultsAreKept(w: World, events: seq<Event>, end: World)
    requires Inv(w) && IsRun(w, events, end) && forall e :: e in events ==> !e.PowerLoss?
    ensures KeptUntil(w, events, end)
    decreases |events|
  {
    if events != [] {
      var e := events[0];
      assert e in events && forall other :: other in events[1..] ==> other in events;
      hide Inv, Next, Enabled, Shape;
      StepHolds(w, e);
      StepKeepsResults(w, e);
      ResultsAreKept(Next(w, e), events[1..], end);
    }
  }

  // ---------- What is acknowledged is what was reported ----------

  /** A volume commit is acknowledged exactly by the turn that reports it done, and the completion names the logged
      record. */
  lemma AcknowledgedIsReported(w: World, e: Event)
    requires Inv(w) && e.Turn? && IsVolumeCommit(w.service)
    ensures var w' := Next(w, e);
      && w.activeId < |w.log|
      && (w'.acked != w.acked <==> w'.service.completionReady && w'.service.lastCompletion.status == CommitOk)
      && (w'.acked != w.acked ==>
            && w'.acked == Some(w.activeId) && w'.service.lastCompletion.kind == TYPE_VOLUME
            && w'.service.lastCompletion.sequence == w.log[w.activeId].sequence)
  {
    CommitFacts(w);
    var move := TickMoves(w.service, e.now, e.accepted);
    assert !MayPromote(w.service) && w.service.active.kind == TYPE_VOLUME;
    assert w.acked != Some(w.activeId);
    hide *;
    MoveReports(w, e, move);
  }

  lemma MoveReports(w: World, e: Event, move: Move)
    requires e.Turn? && Shape(w.service) && IsVolumeCommit(w.service) && !w.service.completionReady && w.acked != Some(w.activeId)
    requires var (t, request) := Tick(w.service, e.now, e.accepted); Moves(w.service, move, t, request)
    ensures var w' := Next(w, e);
      && (w'.acked != w.acked <==> w'.service.completionReady && w'.service.lastCompletion.status == CommitOk)
      && (w'.acked != w.acked ==>
            && w'.acked == Some(w.activeId) && w'.service.lastCompletion.kind == TYPE_VOLUME
            && w'.service.lastCompletion.sequence == w.service.active.sequence)
  {
    hide Tick, Shape, Expected, SuccessState, Advance;
  }

  lemma CommitFacts(w: World)
    requires Inv(w) && IsCommit(w.service)
    ensures Shape(w.service) && TargetOk(w.service) && ReadyOk(w.service) && !w.service.completionReady
    ensures IoOfState(w.service)
    ensures IsVolumeCommit(w.service) ==>
      w.activeId < |w.log| && AckedBefore(w.acked, w.activeId) && w.service.active.sequence == w.log[w.activeId].sequence
  {
    hide Phase, NewestIs, Durable, Expected, SuccessState, Advance, VolumeSlot, PendingOk;
  }

  /** The operation pending is the one its state submits. */
  predicate IoOfState(s: Service) {
    s.io.pending ==> Expected(s).Some? && s.io.successState == SuccessState(s.state) && s.io.advance == Advance(s)
  }

  /** The completion that ends the commit s. */
  predicate Reports(s: Service, t: Service) {
    && t.completionReady && t.lastCompletion.kind == s.active.kind && t.lastCompletion.sequence == s.active.sequence
    && t.lastCompletion.requestId == s.requestId && t.lastCompletion.version == s.active.version
    && (t.lastCompletion.status == CommitOk <==> t.state == Complete)
  }

  predicate Waiting(s: Service) {
    s.io.pending && !s.io.completed
  }

  datatype Move = Fails | Waits | Consumes | Submits | Steps

  /** What one tick does to the commit s: the kind of move, and where it leads. */
  ghost predicate Moves(s: Service, move: Move, t: Service, request: Option<Request>)
    requires Shape(s)
  {
    && t.slotSize == s.slotSize && t.pending == s.pending
    && (request.Some? <==> move == Submits)
    && (t.state == Complete || t.state == Failed ==> Reports(s, t))
    && match move
       case Fails => t.state == Failed
       case Waits => Waiting(s) && t == s
       case Consumes =>
         && s.io.pending && s.io.completed && !t.io.pending && !t.completionReady && Expected(s).Some?
         && t.state == SuccessState(s.state) && t.writeOffset == (s.writeOffset + Advance(s)) % 0x1_0000
       case Submits =>
         && !s.io.pending && Expected(s).Some? && Waiting(t) && !t.completionReady
         && t.state == s.state && t.writeOffset == s.writeOffset
       case Steps =>
         && !s.io.pending && !t.io.pending && Expected(s).None?
         && t.state == Following(s.state) && (t.state != Complete ==> !t.completionReady)
         && t.writeOffset == (if s.state == VerifyBody || s.state == ReadbackBody || s.state == CheckCommit then s.writeOffset else 0)
  }

  /** Where a state without I/O leads, unless the commit fails there. */
  function Following(s: State): State {
    match s
    case PrepareTarget => Invalidate
    case CheckInvalidate => WriteBody
    case WriteBody => ReadbackBody
    case ReadbackBody => VerifyBody
    case VerifyBody => Commit
    case CheckCommit => Complete
    case _ => s
  }

  lemma TickMoves(s: Service, now: uint64, accepted: bool) returns (move: Move)
    requires Shape(s) && TargetOk(s) && IsCommit(s) && !s.completionReady && IoOfState(s)
    ensures var (t, request) := Tick(s, now, accepted); Moves(s, move, t, request)
  {
    hide Moves, ConsumeIoCompletion, SubmitIo, InternalStep, WithIoByte, ExpectedOf, AdvanceOf;
    if s.io.pending {
      move := ConsumeMoves(s);
    } else if Expected(s).Some? {
      ExpectedInProgress(s);
      move := SubmitMoves(s, Expected(s).value, now, accepted);
    } else {
      move := StepMoves(s);
    }
  }

  lemma ConsumeMoves(s: Service) returns (move: Move)
    requires Shape(s) && IsCommit(s) && !s.completionReady && IoOfState(s) && s.io.pending
    ensures Moves(s, move, ConsumeIoCompletion(s), None)
  {
    if s.io.pending {
      SuccessStaysCommit(s);
    }
    hide Expected, Advance, SuccessState, Shape;
    if !s.io.completed {
      move := Waits;
    } else if IsComplete(s.io.completion) {
      move := Consumes;
    } else {
      move := Fails;
    }
  }

  lemma SubmitMoves(s: Service, request: Request, now: uint64, accepted: bool) returns (move: Move)
    requires Shape(s) && IsCommit(s) && !s.completionReady && !s.io.pending && Expected(s) == Some(request) && Advance(s) >= 0
    ensures var (t, submitted) := SubmitIo(WithIoByte(s), request, SuccessState(s.state), Advance(s), now, accepted);
      Moves(s, move, t, submitted)
  {
    hide ExpectedOf, AdvanceOf, SuccessState, Buffers;
    var (t, submitted) := SubmitIo(WithIoByte(s), request, SuccessState(s.state), Advance(s), now, accepted);
    move := if submitted.Some? then Submits else Fails;
  }

  lemma StepMoves(s: Service) returns (move: Move)
    requires Shape(s) && IsCommit(s) && !s.completionReady && !s.io.pending && Expected(s).None?
    ensures Moves(s, move, InternalStep(s), None)
  {
    assert s.state == PrepareTarget || s.state == CheckInvalidate || s.state == WriteBody || s.state == ReadbackBody
        || s.state == VerifyBody || s.state == CheckCommit;
    move := if InternalStep(s).state == Failed then Fails else Steps;
    if s.state == PrepareTarget {
      ChoosingMoves(s);
      hide Expected, ChooseTargetSlot, Shape, Buffers, Reports;
    } else {
      CheckingMoves(s);
      hide Expected, InternalStep, Shape, Buffers, Reports;
    }
  }

  /** The steps that only compare what was read, or move on. */
  lemma CheckingMoves(s: Service)
    requires Shape(s) && !s.completionReady
    requires s.state == CheckInvalidate || s.state == WriteBody || s.state == ReadbackBody || s.state == VerifyBody
      || s.state == CheckCommit
    ensures var t := InternalStep(s);
      && t.slotSize == s.slotSize && t.pending == s.pending && t.io == s.io
      && (t.state == Failed || t.state == Following(s.state))
      && (t.state == Failed || t.state == Complete ==> Reports(s, t))
      && (t.state != Failed && t.state != Complete ==> !t.completionReady)
      && (t.state != Failed ==>
            t.writeOffset == (if s.state == CheckInvalidate || s.state == WriteBody then 0 else s.writeOffset))
  {
    assert BodySize(s) <= |s.active.buffer| == |s.readback|;
    hide ChooseTargetSlot, Shape;
  }

  lemma ChoosingMoves(s: Service)
    requires Shape(s) && s.state == PrepareTarget
    ensures var t := ChooseTargetSlot(s);
      && t.slotSize == s.slotSize && t.pending == s.pending && t.io == s.io
      && (t.state == Failed || (t.state == Invalidate && t.writeOffset == 0 && t.completionReady == s.completionReady))
      && (t.state == Failed ==> Reports(s, t))
  {
    hide Select, Blank96, Zeros, ChooseTarget;
  }

  // ---------- Termination ----------

  function Rank(s: State): nat {
    match s
    case ScanA => 12 case ScanB => 11 case PrepareTarget => 10
    case Invalidate => 9 case VerifyInvalidate => 8 case CheckInvalidate => 7
    case WriteBody => 6 case ReadbackBody => 5 case VerifyBody => 4
    case Commit => 3 case VerifyCommit => 2 case CheckCommit => 1
    case _ => 0
  }

  function BytesLeft(s: Service): int {
    if s.state == WriteBody || s.state == ReadbackBody then BodySize(s) - s.writeOffset else 0
  }

  function IoPhase(s: Service): nat {
    if !s.io.pending then 2 else if !s.io.completed then 1 else 0
  }

  /** State rank, body bytes left and I/O phase, in that order of weight. */
  function Measure(s: Service): int {
    300 * Rank(s.state) + 3 * BytesLeft(s) + IoPhase(s)
  }

  /** An operation done either moves on, or moves the body on by one chunk. */
  lemma ChunkMoves(s: Service)
    requires Shape(s) && TargetOk(s) && IsCommit(s) && Expected(s).Some?
    ensures s.state == WriteBody || s.state == ReadbackBody ==>
      && SuccessState(s.state) == s.state && 0 < Advance(s) <= BytesLeft(s)
      && s.writeOffset + Advance(s) < 0x1_0000 && Chunks(BytesLeft(s) - Advance(s)) == Chunks(BytesLeft(s)) - 1
    ensures s.state != WriteBody && s.state != ReadbackBody ==>
      && Rank(SuccessState(s.state)) == Rank(s.state) - 1
      && SuccessState(s.state) != WriteBody && SuccessState(s.state) != ReadbackBody
  {
  }

  lemma StepMovesOn(s: Service)
    requires Shape(s) && TargetOk(s) && IsCommit(s) && Expected(s).None?
    ensures Rank(Following(s.state)) == Rank(s.state) - 1
    ensures s.state == WriteBody || s.state == ReadbackBody ==> BytesLeft(s) == 0
    ensures Following(s.state) == ReadbackBody <==> s.state == WriteBody
    ensures Following(s.state) == WriteBody <==> s.state == CheckInvalidate
  {
  }

  lemma MoveDescends(s: Service, move: Move, t: Service, request: Option<Request>)
    requires Shape(s) && TargetOk(s) && IsCommit(s) && Moves(s, move, t, request) && move != Waits
    ensures Measure(t) < Measure(s)
  {
    assert BytesLeft(s) >= 0 && Rank(s.state) >= 1 && Rank(Failed) == 0;
    hide Reports, Expected, Rank, SuccessState, Following, Advance, Buffers, Chunks;
    if move == Consumes {
      ChunkMoves(s);
    } else if move == Steps {
      StepMovesOn(s);
    }
  }

  // ---------- The number of operations ----------

  function Chunks(bytes: int): int {
    (bytes + BODY_CHUNK_BYTES - 1) / BODY_CHUNK_BYTES
  }

  /** Operations still to be submitted from a state, for a body of so many chunks with so many of them left. */
  function IosFrom(state: State, all: int, left: int): int {
    match state
    case ScanA => 6 + 2 * all case ScanB => 5 + 2 * all case PrepareTarget => 4 + 2 * all
    case Invalidate => 4 + 2 * all case VerifyInvalidate => 3 + 2 * all case CheckInvalidate => 2 + 2 * all
    case WriteBody => 2 + all + left
    case ReadbackBody => 2 + left
    case VerifyBody => 2 case Commit => 2 case VerifyCommit => 1
    case _ => 0
  }

  function IosLeft(s: Service): int {
    IosFrom(s.state, Chunks(BodySize(s)), Chunks(BytesLeft(s))) - (if s.io.pending then 1 else 0)
  }

  lemma IosOfSuccess(s: State, all: int, left: int)
    requires ExpectsIo(s)
    ensures s != WriteBody && s != ReadbackBody ==> IosFrom(SuccessState(s), all, 0) == IosFrom(s, all, 0) - 1
    ensures s == WriteBody || s == ReadbackBody ==> IosFrom(s, all, left - 1) == IosFrom(s, all, left) - 1
  {
  }

  predicate ExpectsIo(s: State) {
    || s == ScanA || s == ScanB || s == Invalidate || s == VerifyInvalidate || s == WriteBody || s == ReadbackBody
    || s == Commit || s == VerifyCommit
  }

  lemma ExpectedStates(s: Service)
    requires Expected(s).Some? && IsCommit(s)
    ensures ExpectsIo(s.state)
  {
  }

  lemma MoveCounts(s: Service, move: Move, t: Service, request: Option<Request>)
    requires Shape(s) && TargetOk(s) && IsCommit(s) && Moves(s, move, t, request) && move != Fails
    ensures IosLeft(t) + (if request.Some? then 1 else 0) == IosLeft(s)
  {
    if move == Consumes {
      ConsumeCounts(s, t);
    } else if move == Steps {
      StepCounts(s, t);
    }
    hide Reports, Expected, IosFrom, SuccessState, Following, Advance, Buffers, Chunks;
  }

  lemma ConsumeCounts(s: Service, t: Service)
    requires Shape(s) && TargetOk(s) && IsCommit(s) && Moves(s, Consumes, t, None)
    ensures IosLeft(t) == IosLeft(s)
  {
    ExpectedStates(s);
    ChunkMoves(s);
    IosOfSuccess(s.state, Chunks(BodySize(s)), Chunks(BytesLeft(s)));
    assert Chunks(0) == 0;
    hide Reports, Expected, IosFrom, SuccessState, Advance, Buffers, Chunks, Shape, TargetOk;
    if s.state == WriteBody || s.state == ReadbackBody {
      assert BytesLeft(t) == BytesLeft(s) - Advance(s);
    } else {
      assert BytesLeft(t) == 0 == BytesLeft(s);
    }
  }

  lemma StepCounts(s: Service, t: Service)
    requires Shape(s) && TargetOk(s) && IsCommit(s) && Moves(s, Steps, t, None)
    ensures IosLeft(t) == IosLeft(s)
  {
    StepMovesOn(s);
    assert Chunks(0) == 0;
    hide Reports, Advance, Buffers, Chunks;
  }

  // ---------- Runs of a commit ----------

  /** A commit in progress at every event of the run, without a loss of power, up to the world it ends in. */
  ghost predicate CommitRun(w: World, events: seq<Event>, end: World)
    decreases |events|
  {
    if events == [] then end == w
    else |w.media| == MEDIA_SIZE && Shape(w.service) && IsCommit(w.service) && !events[0].PowerLoss?
         && Enabled(w, events[0]) && CommitRun(Next(w, events[0]), events[1..], end)
  }

  /** A turn that has something to do, or the report of the operation in flight. */
  predicate Progress(w: World, e: Event) {
    e.IoDone? || (e.Turn? && !Waiting(w.service))
  }

  predicate Submission(w: World, e: Event)
    requires Shape(w.service)
  {
    e.Turn? && Tick(w.service, e.now, e.accepted).1.Some?
  }

  ghost function ProgressCount(w: World, events: seq<Event>): nat
    decreases |events|
  {
    if events == [] || !Shape(w.service) then 0
    else (if Progress(w, events[0]) then 1 else 0) + ProgressCount(Next(w, events[0]), events[1..])
  }

  ghost function Submissions(w: World, events: seq<Event>): nat
    decreases |events|
  {
    if events == [] || !Shape(w.service) then 0
    else (if Submission(w, events[0]) then 1 else 0) + Submissions(Next(w, events[0]), events[1..])
  }

  /** Every event brings the commit nearer to its end or leaves it where it is, and so with its operations. */
  lemma StepAdvances(w: World, e: Event)
    requires Inv(w) && Enabled(w, e) && IsCommit(w.service) && !e.PowerLoss?
    ensures Advances(w, e)
  {
    CommitFacts(w);
    if e.Turn? {
      hide *;
      TurnAdvances(w, e);
    } else {
      StaysPut(w, e);
      hide *;
      PutAdvances(w, e);
    }
  }

  lemma PutAdvances(w: World, e: Event)
    requires Shape(w.service) && !e.Turn? && SamePlace(w.service, Next(w, e).service)
    requires if e.IoDone? then Waiting(w.service) && Next(w, e).service.io.completed
             else Next(w, e).service.io.completed == w.service.io.completed
    ensures Advances(w, e)
  {
    hide Next, Rank, IosFrom, Shape;
  }

  ghost predicate Advances(w: World, e: Event)
    requires Shape(w.service)
  {
    var (s, t) := (w.service, Next(w, e).service);
    && Measure(t) + (if Progress(w, e) then 1 else 0) <= Measure(s)
    && (t.state != Failed ==> IosLeft(t) + (if Submission(w, e) then 1 else 0) == IosLeft(s))
  }

  /** t is where s is in its commit. */
  predicate SamePlace(s: Service, t: Service) {
    t.state == s.state && t.slotSize == s.slotSize && t.writeOffset == s.writeOffset && t.io.pending == s.io.pending
  }

  /** Only a turn moves a commit. */
  lemma StaysPut(w: World, e: Event)
    requires Inv(w) && Enabled(w, e) && IsCommit(w.service) && !e.Turn? && !e.PowerLoss?
    ensures Shape(w.service) && SamePlace(w.service, Next(w, e).service)
    ensures if e.IoDone? then Waiting(w.service) && Next(w, e).service.io.completed
            else Next(w, e).service.io.completed == w.service.io.completed
  {
    CommitFacts(w);
    if e.IoDone? {
      assert CoreInv(w.service, w.media, w.flight) && w.flight.Some?;
      CompletionPuts(w.service, w.media, w.flight, Reported(w, e), e.received);
      hide Inv, CoreInv, Enabled, Shape, Tick, SubmitCheckpoint, Receive, OnIoCompletion, SamePlace;
    } else {
      assert e.StrayCompletion? ==> !Matches(w.service, e.completion);
      hide *;
      OthersStayPut(w, e);
    }
  }

  lemma OthersStayPut(w: World, e: Event)
    requires Shape(w.service) && ReadyOk(w.service) && IsCommit(w.service) && !e.Turn? && !e.PowerLoss? && !e.IoDone?
    requires e.StrayCompletion? ==> !Matches(w.service, e.completion)
    ensures SamePlace(w.service, Next(w, e).service) && Next(w, e).service.io.completed == w.service.io.completed
  {
    hide Tick, Receive, Shape, Padded;
  }

  lemma CompletionPuts(s: Service, m: Media, flight: Option<Request>, c: IoCompletion, received: seq<uint8>)
    requires CoreInv(s, m, flight) && flight.Some? && c.token == s.io.token
    ensures Buffers(s) && Waiting(s)
    ensures var t := OnIoCompletion(Receive(s, received), c); SamePlace(s, t) && t.io.completed
  {
    CompletionTaken(s, m, flight, c, received);
    hide OnIoCompletion, CoreInv;
    ReceiveKeeps(s, received);
    ReportingPuts(s, c, received);
    hide Receive;
  }

  lemma ReportingPuts(s: Service, c: IoCompletion, received: seq<uint8>)
    requires Buffers(s)
    ensures var t := Reporting(s, c, received);
      t.slotSize == s.slotSize && t.writeOffset == s.writeOffset && t.io.pending == s.io.pending && t.io.completed
  {
    hide Overlaid;
  }

  lemma TurnAdvances(w: World, e: Event)
    requires Shape(w.service) && TargetOk(w.service) && IoOfState(w.service) && IsCommit(w.service)
    requires e.Turn? && !w.service.completionReady
    ensures Advances(w, e)
  {
    var s := w.service;
    var (t, request) := Tick(s, e.now, e.accepted);
    var move := TickMoves(s, e.now, e.accepted);
    if move != Waits {
      MoveDescends(s, move, t, request);
    }
    if move != Fails {
      MoveCounts(s, move, t, request);
    } else {
      assert t.state == Failed;
    }
    assert move == Waits ==> Waiting(s) && t == s;
    hide Tick, Shape, Expected, Measure, IosLeft, Moves;
  }

  lemma MeasureBound(s: Service)
    requires Shape(s) && TargetOk(s)
    ensures 0 <= Measure(s) <= 3887
  {
  }

  /** A commit ends: it can make at most Measure steps of progress, however its operations turn out and whatever else
      happens, short of a loss of power. */
  lemma {:induction false} CommitEnds(w: World, events: seq<Event>, end: World)
    requires Inv(w) && CommitRun(w, events, end)
    ensures ProgressCount(w, events) <= Measure(w.service) <= 3887
    decreases |events|
  {
    assert Shape(w.service) && TargetOk(w.service);
    MeasureBound(w.service);
    hide Inv, Next, Enabled, Measure, Shape, TargetOk;
    if events != [] {
      StepHolds(w, events[0]);
      StepAdvances(w, events[0]);
      CommitEnds(Next(w, events[0]), events[1..], end);
    }
  }

  /** And it is never stuck: either its operation is in flight, so its one completion is due, or a turn progresses. */
  lemma NeverStuck(w: World, now: uint64, accepted: bool)
    requires Inv(w) && IsCommit(w.service)
    ensures w.flight.Some? || Progress(w, Turn(now, accepted))
  {
    hide Phase, ActiveOk, PendingOk, Durable;
  }

  /** A commit that is acknowledged has submitted exactly the operations that were left. */
  lemma {:induction false} OperationsUsed(w: World, events: seq<Event>, end: World)
    requires Inv(w) && CommitRun(w, events, end) && end.service.state == Complete
    ensures Submissions(w, events) == IosLeft(w.service)
    decreases |events|
  {
    if events == [] {
      assert !w.service.io.pending;
    } else {
      StepHolds(w, events[0]);
      assert Shape(w.service);
      hide Inv, Next, Enabled, IosLeft, Shape;
      StepAdvances(w, events[0]);
      OperationsUsed(Next(w, events[0]), events[1..], end);
    }
  }

  /** From its first scan, that is 6 and two for each chunk of 32 bytes of the body. */
  lemma OperationsOfCommit(w: World, events: seq<Event>, end: World)
    requires Inv(w) && w.service.state == ScanA && !w.service.io.pending
    requires CommitRun(w, events, end) && end.service.state == Complete
    ensures Submissions(w, events) == 6 + 2 * Chunks(SlotSize(w.service.active.kind) - 1)
    ensures w.service.active.kind == TYPE_VOLUME ==> Submissions(w, events) == 10
  {
    OperationsUsed(w, events, end);
    assert Shape(w.service);
    hide *;
    FirstScan(w.service);
  }

  lemma FirstScan(s: Service)
    requires Shape(s) && s.state == ScanA && !s.io.pending
    ensures IosLeft(s) == 6 + 2 * Chunks(SlotSize(s.active.kind) - 1)
    ensures s.active.kind == TYPE_VOLUME ==> IosLeft(s) == 10
  {
  }
}
