/** The composite meets the storage contract: over every run, each accepted operation has exactly one completion, which
    tells the truth, or its one transfer is on the bus. */
module FramOnBusSafety {
  import opened Bits
  import opened Sequences
  import opened StorageRecord
  import opened StoragePort
  import opened I2cBusManager
  import opened I2cBusSafety
  import opened FramDriver
  import opened FramSafety
  import opened FramOnBus

  // ---------- What holds of the composite ----------

  /** The transfers on the bus: the active one and those that wait. */
  function OnBus(b: Bus): seq<Transaction> {
    (if b.active.Some? then [b.active.value] else []) + b.pending
  }

  /** t carries the piece the driver waits for. */
  predicate IsMine(t: Transaction, d: Driver)
    requires DriverOk(d)
  {
    t.id == d.job.transactionId && t.request == NextTransfer(d)
  }

  predicate NoneOf(b: Bus, client: uint32) {
    forall p :: p in OnBus(b) ==> p.request.clientId != client
  }

  /** The driver waits if and only if a transfer of its own is on the bus, and that carries the piece it waits for. */
  ghost predicate Mine(b: Bus, d: Driver)
    requires DriverOk(d)
  {
    if d.state == WaitingI2c then
      && (forall p :: p in OnBus(b) && p.request.clientId == d.config.clientId ==> IsMine(p, d))
      && (exists p :: p in OnBus(b) && p.request.clientId == d.config.clientId)
    else NoneOf(b, d.config.clientId)
  }

  /** Callbacks of other clients submit in their own name. */
  predicate OthersAct(lists: seq<seq<BusRequest>>, me: uint32) {
    forall i, j :: 0 <= i < |lists| && 0 <= j < |lists[i]| ==> lists[i][j].clientId != me
  }

  /** A data operation in progress has done exactly its front; a probe is recognised as one. */
  ghost predicate InProgress(s: Stack) {
    s.driver.state == WaitingI2c ==>
      match s.request
      case Some(r) => Underway(s.driver, r, s.origin, s.media)
      case None => s.driver.job.operation == ProbeOperation
  }

  ghost predicate Truthful(x: Done) {
    x.request.Some? ==>
      && Effect(x.request.value, x.completion, x.origin, x.end, x.buffer)
      && x.completion.requestedLength == x.request.value.Length()
      && (IsComplete(x.completion) <==> x.completion.result == IoOk)
  }

  function Tokens(done: seq<Done>): (tokens: seq<Token>)
    ensures |tokens| == |done| && forall i :: 0 <= i < |done| ==> tokens[i] == done[i].completion.token
  {
    seq(|done|, i requires 0 <= i < |done| => done[i].completion.token)
  }

  /** The completions are those of the accepted operations, in order, one each, but for the one in progress. */
  ghost predicate BooksOk(s: Stack) {
    && s.accepted == Tokens(s.done) + (if s.driver.state == WaitingI2c then [s.driver.job.token] else [])
    && (forall x :: x in s.done ==> Truthful(x))
  }

  /** Apart from where the driver's transfer is. */
  ghost predicate Base(s: Stack) {
    && DriverOk(s.driver) && s.driver.state != Uninitialized && |s.media| == SIZE_BYTES
    && FindClient(s.bus.clients, Me(s)).Some? && OthersAct(s.bus.world.reactions, Me(s))
    && BooksOk(s)
  }

  /** In the middle of a call, with transfers of the identifiers extra in nobody's hands. */
  ghost predicate Mid(s: Stack, extra: multiset<nat>) {
    Base(s) && CoreInv(s.bus, extra) && Mine(s.bus, s.driver) && InProgress(s)
  }

  ghost predicate StackInv(s: Stack) {
    Mid(s, multiset{}) && (s.bus.pending != [] ==> s.bus.active.Some?)
  }

  // ---------- Where transfers are ----------

  lemma SubmitPlaces(b: Bus, r: BusRequest)
    ensures var (c, answer) := Submit(b, r);
      && (forall p :: p in OnBus(b) ==> p in OnBus(c))
      && (forall p :: p in OnBus(c) && p !in OnBus(b) ==> answer.Accepted? && p.request == r && p.id == answer.id)
      && (answer.Accepted? ==> exists p :: p in OnBus(c) && p.request == r && p.id == answer.id)
      && c.clients == b.clients && c.world.reactions == b.world.reactions
  {
    hide AcceptsAddress, FindClient, WellFormed;
    var (c, answer) := Submit(b, r);
    if b.active.Some? {
      if answer.Accepted? {
        assert OnBus(c) == OnBus(b) + [c.pending[|b.pending|]];
      }
    } else if answer.Accepted? {
      assert c.active.Some? && OnBus(c) == [c.active.value] + OnBus(b);
      assert c.active.value in OnBus(c);
    }
  }

  lemma {:induction false} SubmitAllPlaces(b: Bus, rs: seq<BusRequest>, me: uint32)
    requires forall j :: 0 <= j < |rs| ==> rs[j].clientId != me
    ensures var c := SubmitAll(b, rs);
      && (forall p :: p in OnBus(b) ==> p in OnBus(c))
      && (forall p :: p in OnBus(c) && p.request.clientId == me ==> p in OnBus(b))
      && c.clients == b.clients
    decreases |rs|
  {
    if rs != [] {
      SubmitPlaces(b, rs[0]);
      hide Submit, OnBus;
      SubmitAllPlaces(Submit(b, rs[0]).0, rs[1..], me);
    }
  }

  /** A report to another client touches no transfer of ours. */
  lemma NotifyPlaces(b: Bus, t: Transaction, result: TransactionResult, me: uint32)
    requires OthersAct(b.world.reactions, me)
    ensures var c := Notify(b, t, result);
      && (forall p :: p in OnBus(b) ==> p in OnBus(c))
      && (forall p :: p in OnBus(c) && p.request.clientId == me ==> p in OnBus(b))
      && c.clients == b.clients && OthersAct(c.world.reactions, me)
  {
    if FindClient(b.clients, t.request.clientId).Some? && b.world.reactions != [] {
      var told := Heard(b, t, result);
      var next := told.(world := told.world.(reactions := b.world.reactions[1..]));
      assert OnBus(next) == OnBus(b);
      SubmitAllPlaces(next, b.world.reactions[0], me);
      hide SubmitAll, OnBus;
      assert Notify(b, t, result) == SubmitAll(next, b.world.reactions[0]);
    } else {
      assert OnBus(Notify(b, t, result)) == OnBus(b);
    }
  }

  /** Mine depends on our transfers only. */
  lemma MineKeeps(b: Bus, c: Bus, d: Driver)
    requires DriverOk(d) && Mine(b, d)
    requires forall p :: p in OnBus(b) && p.request.clientId == d.config.clientId ==> p in OnBus(c)
    requires forall p :: p in OnBus(c) && p.request.clientId == d.config.clientId ==> p in OnBus(b)
    ensures Mine(c, d)
  {
    hide OnBus, IsMine;
  }

  /** An identifier in nobody's hands is that of no transfer on the bus. */
  lemma HandedOut(b: Bus, extra: multiset<nat>, id: nat)
    requires CoreInv(b, extra + multiset{id})
    ensures forall p :: p in OnBus(b) ==> p.id != id
  {
    AscendingCounts(b.world.accepted, b.nextId, id);
    assert multiset(Ids(b.pending))[id] + ActiveIds(b)[id] == 0;
    forall p | p in OnBus(b)
      ensures p.id != id
    {
      if p in b.pending {
        var i :| 0 <= i < |b.pending| && b.pending[i] == p;
        assert Ids(b.pending)[i] == p.id;
      }
    }
    hide Ids, NotifiedIds;
  }

  /** Once ours is out of the bus, there is none. */
  lemma OutIsNone(b: Bus, extra: multiset<nat>, d: Driver, t: Transaction)
    requires DriverOk(d) && CoreInv(b, extra + multiset{t.id}) && IsMine(t, d)
    requires forall p :: p in OnBus(b) && p.request.clientId == d.config.clientId ==> IsMine(p, d)
    ensures NoneOf(b, d.config.clientId)
  {
    HandedOut(b, extra, t.id);
    hide OnBus, CoreInv, NextTransfer;
  }

  // ---------- The driver hears of the end of its transfer ----------

  /** What the report will lead to, for a data operation and however the bus answers the next request. */
  ghost predicate PieceOk(s: Stack, r: Request, c: TxCompletion, answer: SubmitResult)
    requires DriverOk(s.driver)
  {
    var (d, outcome) := OnI2cCompletion(s.driver, c, answer);
    match outcome.completion
    case None => Underway(d, r, s.origin, s.media)
    case Some(x) =>
      && x.requestedLength == r.Length() && (IsComplete(x) <==> x.result == IoOk)
      && Effect(r, x, s.origin, s.media, s.driver.job.readBuffer)
  }

  ghost predicate Concludes(s: Stack, c: TxCompletion)
    requires DriverOk(s.driver)
  {
    match s.request
    case Some(r) => forall answer :: PieceOk(s, r, c, answer)
    case None => s.driver.job.operation == ProbeOperation
  }

  /** Our transfer t has left the bus with result; what it did to the device and the buffer has landed. */
  ghost predicate Out(s: Stack, t: Transaction, result: TransactionResult, extra: multiset<nat>) {
    && Base(s) && s.driver.state == WaitingI2c && t.request.clientId == Me(s)
    && CoreInv(s.bus, extra + multiset{t.id}) && NoneOf(s.bus, Me(s))
    && IsMine(t, s.driver) && Concludes(s, CompletionOf(t, result))
  }

  lemma HeardKeeps(b: Bus, t: Transaction, result: TransactionResult, extra: multiset<nat>)
    requires CoreInv(b, extra + multiset{t.id})
    ensures CoreInv(Heard(b, t, result), extra) && OnBus(Heard(b, t, result)) == OnBus(b)
  {
    NotifiedAppend(b.world.notified, CompletionOf(t, result));
    hide Ids, NotifiedIds, FindClient;
  }

  /** The driver asks before it knows the answer; then it waits for exactly what was accepted, or is done. */
  lemma ReportShape(d: Driver, c: TxCompletion, answer: SubmitResult)
    requires DriverOk(d) && IsForActive(d, c)
    ensures var (t, outcome) := OnI2cCompletion(d, c, answer);
      && DriverOk(t) && t.config == d.config
      && outcome.transfer == OnI2cCompletion(d, c, NoCapacity).1.transfer
      && (outcome.transfer.Some? ==> outcome.transfer.value.clientId == d.config.clientId)
      && match outcome.completion
         case None =>
           && answer.Accepted? && t.state == WaitingI2c && t.job.transactionId == answer.id
           && outcome.transfer == Some(NextTransfer(t)) && t.job.token == d.job.token && t.job.operation == d.job.operation
         case Some(x) => t.state == FramIdle && x.token == d.job.token && (outcome.transfer.None? || !answer.Accepted?)
  {
    CallbackKeepsDriver(d, c, answer);
    var moved := Moved(d);
    if d.job.operation == ProbeOperation {
      var next := d.(job := d.job.(transferred := d.job.transferred + 1, probePage := 1));
      if d.job.probePage == 0 {
        ContinueShape(next, answer);
      }
    } else if moved.job.transferred < d.job.requested {
      ContinueShape(moved, answer);
    }
    hide NextTransfer, ConfigIsValid, Continue;
  }

  lemma ContinueShape(d: Driver, answer: SubmitResult)
    requires JobOk(d.job) && d.config.slaveBase % 2 == 0
    ensures var (t, outcome) := Continue(d, answer);
      && outcome.transfer == Some(NextTransfer(d)) && NextTransfer(d).clientId == d.config.clientId && t.config == d.config
      && match outcome.completion
         case None =>
           && answer.Accepted? && t.state == WaitingI2c && t.job.transactionId == answer.id && JobOk(t.job)
           && NextTransfer(t) == NextTransfer(d) && t.job.token == d.job.token && t.job.operation == d.job.operation
         case Some(x) => t.state == FramIdle && x.token == d.job.token && !answer.Accepted?
  {
    SamePiece(d, answer);
    assert NextTransfer(d).clientId == d.config.clientId;
    hide NextTransfer, ChunkLength;
  }

  /** The driver's request goes to the bus, if there is one. */
  lemma AskBus(b: Bus, client: uint32, asked: Option<BusRequest>, extra: multiset<nat>) returns (bus: Bus, answer: SubmitResult)
    requires CoreInv(b, extra) && NoneOf(b, client) && (asked.Some? ==> asked.value.clientId == client)
    ensures (bus, answer) == if asked.Some? then Submit(b, asked.value) else (b, NoCapacity)
    ensures CoreInv(bus, extra) && bus.clients == b.clients && bus.world.reactions == b.world.reactions
    ensures forall p :: p in OnBus(bus) && p.request.clientId == client ==>
      asked.Some? && answer.Accepted? && p.request == asked.value && p.id == answer.id
    ensures asked.Some? && answer.Accepted? ==> exists p :: p in OnBus(bus) && p.request.clientId == client
  {
    if asked.Some? {
      SubmitKeeps(b, asked.value, extra);
      SubmitPlaces(b, asked.value);
      bus, answer := Submit(b, asked.value).0, Submit(b, asked.value).1;
    } else {
      bus, answer := b, NoCapacity;
    }
    hide CoreInv, OnBus, Submit;
  }

  /** The driver either waits for the transfer that the bus has just taken, or is idle with none on the bus. */
  lemma AskedIsMine(bus: Bus, d: Driver, asked: Option<BusRequest>, answer: SubmitResult, completion: Option<IoCompletion>)
    requires DriverOk(d)
    requires forall p :: p in OnBus(bus) && p.request.clientId == d.config.clientId ==>
      asked.Some? && answer.Accepted? && p.request == asked.value && p.id == answer.id
    requires asked.Some? && answer.Accepted? ==> exists p :: p in OnBus(bus) && p.request.clientId == d.config.clientId
    requires match completion
      case None => asked == Some(NextTransfer(d)) && answer.Accepted? && d.state == WaitingI2c && d.job.transactionId == answer.id
      case Some(x) => d.state == FramIdle && (asked.None? || !answer.Accepted?)
    ensures Mine(bus, d)
  {
    hide OnBus, NextTransfer;
  }

  /** The books after the report: the operation goes on under its token, or its completion is entered. */
  lemma ReportedBooks(s: Stack, u: Stack, c: TxCompletion, answer: SubmitResult)
    requires DriverOk(s.driver) && BooksOk(s) && s.driver.state == WaitingI2c && Concludes(s, c)
    requires var (d, outcome) := OnI2cCompletion(s.driver, c, answer);
      && u.driver == d && u.media == s.media && u.request == s.request && u.origin == s.origin && u.accepted == s.accepted
      && match outcome.completion
         case None => d.state == WaitingI2c && d.job.token == s.driver.job.token && d.job.operation == s.driver.job.operation
                      && u.done == s.done
         case Some(x) => d.state == FramIdle && x.token == s.driver.job.token
                         && u.done == s.done + [Done(s.request, x, s.origin, s.media, s.driver.job.readBuffer)]
    ensures BooksOk(u) && InProgress(u)
  {
    if s.request.Some? {
      assert PieceOk(s, s.request.value, c, answer);
    }
    hide OnI2cCompletion, Underway, Effect;
    var (_, outcome) := OnI2cCompletion(s.driver, c, answer);
    if outcome.completion.Some? {
      assert Tokens(u.done) == Tokens(s.done) + [s.driver.job.token];
    }
  }

  /** The driver's answer to the report, with the bus's answer to the driver. */
  lemma ReactKeeps(s: Stack, t: Transaction, result: TransactionResult, extra: multiset<nat>)
    requires Out(s, t, result, extra)
    ensures Mid(StackNotify(s, t, result), extra)
    ensures result != TxOk ==> StackNotify(s, t, result).driver.state == FramIdle
  {
    var c := CompletionOf(t, result);
    var b := Heard(s.bus, t, result);
    var asked := OnI2cCompletion(s.driver, c, NoCapacity).1.transfer;
    TakesOwnReport(s.driver, t, result);
    HeardKeeps(s.bus, t, result, extra);
    ReportShape(s.driver, c, NoCapacity);
    assert asked.Some? ==> asked.value.clientId == Me(s);
    assert b.clients == s.bus.clients && b.world.reactions == s.bus.world.reactions && NoneOf(b, Me(s));
    var u := StackNotify(s, t, result);
    assert u == React(s.(bus := b), c);
    assert result != TxOk ==> asked.None? by { assert MapResult(result) != IoOk <==> result != TxOk; hide NextTransfer, ConfigIsValid; }
    hide *;
    var bus, answer := AskBus(b, Me(s), asked, extra);
    ReactIs(s.(bus := b), c, asked, bus, answer);
    ReportShape(s.driver, c, answer);
    Reacted(s, u, c, asked, bus, answer, extra);
  }

  lemma ReactIs(s: Stack, c: TxCompletion, asked: Option<BusRequest>, bus: Bus, answer: SubmitResult)
    requires DriverOk(s.driver) && asked == OnI2cCompletion(s.driver, c, NoCapacity).1.transfer
    requires (bus, answer) == if asked.Some? then Submit(s.bus, asked.value) else (s.bus, NoCapacity)
    ensures var (d, outcome) := OnI2cCompletion(s.driver, c, answer);
      React(s, c) == s.(bus := bus, driver := d,
        done := match outcome.completion
                case None => s.done
                case Some(x) => s.done + [Done(s.request, x, s.origin, s.media, s.driver.job.readBuffer)])
  {
    var u := React(s, c);
    var (d, outcome) := OnI2cCompletion(s.driver, c, answer);
    assert u.bus == bus;
    assert u.driver == d;
    assert u.media == s.media && u.request == s.request && u.origin == s.origin && u.accepted == s.accepted;
    assert outcome.completion.None? ==> u.done == s.done;
    assert outcome.completion.Some? ==> u.done == s.done + [Done(s.request, outcome.completion.value, s.origin, s.media, s.driver.job.readBuffer)];
  }

  lemma Reacted(s: Stack, u: Stack, c: TxCompletion, asked: Option<BusRequest>, bus: Bus, answer: SubmitResult, extra: multiset<nat>)
    requires Base(s) && s.driver.state == WaitingI2c && Concludes(s, c) && CoreInv(bus, extra)
    requires bus.clients == s.bus.clients && bus.world.reactions == s.bus.world.reactions
    requires asked == OnI2cCompletion(s.driver, c, answer).1.transfer
    requires forall p :: p in OnBus(bus) && p.request.clientId == Me(s) ==>
      asked.Some? && answer.Accepted? && p.request == asked.value && p.id == answer.id
    requires asked.Some? && answer.Accepted? ==> exists p :: p in OnBus(bus) && p.request.clientId == Me(s)
    requires var (d, outcome) := OnI2cCompletion(s.driver, c, answer);
      && DriverOk(d) && d.config == s.driver.config
      && match outcome.completion
         case None =>
           && answer.Accepted? && d.state == WaitingI2c && d.job.transactionId == answer.id
           && outcome.transfer == Some(NextTransfer(d)) && d.job.token == s.driver.job.token
           && d.job.operation == s.driver.job.operation
         case Some(x) => d.state == FramIdle && x.token == s.driver.job.token && (outcome.transfer.None? || !answer.Accepted?)
    requires var (d, outcome) := OnI2cCompletion(s.driver, c, answer);
      u == s.(bus := bus, driver := d,
        done := match outcome.completion
                case None => s.done
                case Some(x) => s.done + [Done(s.request, x, s.origin, s.media, s.driver.job.readBuffer)])
    ensures Mid(u, extra)
    ensures asked.None? ==> u.driver.state == FramIdle
  {
    var (d, outcome) := OnI2cCompletion(s.driver, c, answer);
    assert BooksOk(s);
    hide OnI2cCompletion, CoreInv, DriverOk, NextTransfer, BooksOk, Concludes, OnBus, InProgress, Mine, FindClient;
    AskedIsMine(bus, d, asked, answer, outcome.completion);
    ReportedBooks(s, u, c, answer);
  }

  // ---------- What the transfer did ----------

  /** The effect of our transfer, landed, leads to what the contract says. */
  lemma LandedConcludes(s: Stack, t: Transaction, result: TransactionResult, after: Media, received: seq<uint8>)
    requires DriverOk(s.driver) && s.driver.state == WaitingI2c && InProgress(s) && IsMine(t, s.driver)
    requires Transferred(t.request, result, s.media, after, received)
    ensures var l := Landed(s, after, received);
      && DriverOk(l.driver) && |l.media| == SIZE_BYTES && IsMine(t, l.driver) && Concludes(l, CompletionOf(t, result))
      && l.driver.config == s.driver.config && l.driver.state == s.driver.state && l.driver.job.token == s.driver.job.token
  {
    var l := Landed(s, after, received);
    var c := CompletionOf(t, result);
    ReceivedKeepsDriver(s.driver, received);
    SameTransfer(s.driver, received);
    TakesOwnReport(s.driver, t, result);
    if s.request.Some? {
      var r := s.request.value;
      forall answer
        ensures PieceOk(l, r, c, answer)
      {
        PieceConcludes(s, r, c, after, received, answer);
      }
      hide PieceOk, NextTransfer, Underway, Transferred, OnI2cCompletion;
    }
    hide NextTransfer, Transferred, ConfigIsValid, OnI2cCompletion;
  }

  lemma SameTransfer(d: Driver, received: seq<uint8>)
    requires DriverOk(d)
    ensures DriverOk(Received(d, received)) && NextTransfer(Received(d, received)) == NextTransfer(d)
    ensures Received(d, received) == d.(job := d.job.(readBuffer := Received(d, received).job.readBuffer))
  {
    ReceivedKeepsDriver(d, received);
    hide SlaveAddress, ConfigIsValid;
  }

  lemma PieceConcludes(s: Stack, r: Request, c: TxCompletion, after: Media, received: seq<uint8>, answer: SubmitResult)
    requires DriverOk(s.driver) && Underway(s.driver, r, s.origin, s.media) && IsForActive(s.driver, c)
    requires Transferred(NextTransfer(s.driver), c.result, s.media, after, received)
    ensures DriverOk(Landed(s, after, received).driver) && PieceOk(Landed(s, after, received), r, c, answer)
  {
    ReceivedKeepsDriver(s.driver, received);
    if r.Write? {
      WritePiece(s.driver, r, s.origin, s.media, c, after, received, answer);
    } else {
      ReadPiece(s.driver, r, s.origin, s.media, c, after, received, answer);
    }
    hide Underway, Transferred, NextTransfer, OnI2cCompletion, Effect, ConfigIsValid, Received;
  }

  /** A transfer that never began did nothing, and that too is an effect it may have. */
  lemma NeverBegan(s: Stack, t: Transaction, result: TransactionResult) returns (received: seq<uint8>)
    requires DriverOk(s.driver) && s.driver.state == WaitingI2c && InProgress(s) && IsMine(t, s.driver) && result != TxOk
    requires |s.media| == SIZE_BYTES
    ensures Transferred(t.request, result, s.media, s.media, received) && Landed(s, s.media, received) == s
  {
    var d := s.driver;
    match s.request
    case None =>
      received := [0];
      hide ConfigIsValid, SlaveAddress, ChunkLength;
    case Some(r) =>
      TransferOfChunk(d);
      var n := ChunkLength(d.config, d.job);
      var k := d.job.transferred;
      hide NextTransfer, ConfigIsValid, StaysInBlock, ChunkLength;
      if r.Read? {
        received := d.job.readBuffer[k..k + n];
        assert Spliced(d.job.readBuffer, k, received) == d.job.readBuffer;
      } else {
        received := [];
      }
  }

  // ---------- Reports and the queue ----------

  /** A report to another client. */
  lemma OtherNotifyKeeps(s: Stack, t: Transaction, result: TransactionResult, extra: multiset<nat>)
    requires Mid(s, extra + multiset{t.id}) && Registered(s.bus, t) && t.request.clientId != Me(s)
    ensures Mid(StackNotify(s, t, result), extra) && StackNotify(s, t, result).driver == s.driver
  {
    var u := StackNotify(s, t, result);
    assert u == s.(bus := Notify(s.bus, t, result));
    hide *;
    OtherBus(s, t, result, extra, u);
  }

  lemma OtherBus(s: Stack, t: Transaction, result: TransactionResult, extra: multiset<nat>, u: Stack)
    requires Mid(s, extra + multiset{t.id}) && Registered(s.bus, t) && u == s.(bus := Notify(s.bus, t, result))
    ensures Mid(u, extra)
  {
    hide Notify, OnBus, CoreInv, DriverOk, NextTransfer, IsMine, Underway, FindClient, Truthful, Mine, OthersAct, Registered;
    NotifyKeeps(s.bus, t, result, extra);
    NotifyPlaces(s.bus, t, result, Me(s));
    MineKeeps(s.bus, u.bus, s.driver);
  }

  /** A transfer of ours leaves the bus without having begun. */
  lemma TakenOut(s: Stack, t: Transaction, b: Bus, result: TransactionResult, e: multiset<nat>, extra: multiset<nat>)
    requires Mid(s, e) && t in OnBus(s.bus) && t.request.clientId == Me(s) && result != TxOk
    requires CoreInv(b, extra + multiset{t.id}) && b.clients == s.bus.clients && b.world.reactions == s.bus.world.reactions
    requires forall p :: p in OnBus(b) ==> p in OnBus(s.bus)
    ensures Out(s.(bus := b), t, result, extra)
  {
    assert s.driver.state == WaitingI2c && IsMine(t, s.driver);
    var l := s.(bus := b);
    OutIsNone(b, extra, s.driver, t);
    hide OnBus, CoreInv, DriverOk, NextTransfer, IsMine, Underway, FindClient, Truthful, Concludes, Landed, NoneOf, OthersAct;
    var received := NeverBegan(s, t, result);
    LandedConcludes(s, t, result, s.media, received);
    ConcludesWithout(s, b, CompletionOf(t, result));
  }

  lemma ConcludesWithout(s: Stack, b: Bus, c: TxCompletion)
    requires DriverOk(s.driver) && Concludes(s, c)
    ensures Concludes(s.(bus := b), c)
  {
    if s.request.Some? {
      forall answer
        ensures PieceOk(s.(bus := b), s.request.value, c, answer)
      {
        assert PieceOk(s, s.request.value, c, answer);
      }
    }
    hide PieceOk;
  }

  /** The best waiting transfer, taken out to be started. */
  lemma StartedMine(b: Bus, i: nat, c: Bus, d: Driver)
    requires DriverOk(d) && Mine(b, d) && b.active.None? && i < |b.pending|
    requires c.active == Some(b.pending[i].(busGeneration := b.generation)) && c.pending == Removed(b.pending, i)
    ensures Mine(c, d)
  {
    var t := b.pending[i];
    assert OnBus(b) == b.pending && OnBus(c) == [c.active.value] + c.pending;
    RemovedEntries(b.pending, i);
    forall p | p in OnBus(c) && p.request.clientId == d.config.clientId
      ensures d.state == WaitingI2c && IsMine(p, d)
    {
      assert p == c.active.value ==> t in OnBus(b);
      assert p in c.pending ==> p in OnBus(b);
    }
    if d.state == WaitingI2c {
      var p :| p in OnBus(b) && p.request.clientId == d.config.clientId;
      var k :| 0 <= k < |b.pending| && b.pending[k] == p;
      if k == i {
        assert c.active.value in OnBus(c);
      } else {
        assert c.pending[if k < i then k else k - 1] == p;
        assert p in OnBus(c);
      }
    }
    hide NextTransfer, DriverOk;
  }

  /** Taking a transfer of another client out of the queue. */
  lemma WithoutMine(b: Bus, i: nat, c: Bus, d: Driver)
    requires DriverOk(d) && Mine(b, d) && i < |b.pending| && b.pending[i].request.clientId != d.config.clientId
    requires c.active == b.active && c.pending == Removed(b.pending, i)
    ensures Mine(c, d)
  {
    RemovedEntries(b.pending, i);
    forall p | p in OnBus(b) && p.request.clientId == d.config.clientId
      ensures p in OnBus(c)
    {
      if p in b.pending {
        var k :| 0 <= k < |b.pending| && b.pending[k] == p;
        assert c.pending[if k < i then k else k - 1] == p;
      }
    }
    StillOnBus(b, i, c);
    MineKeeps(b, c, d);
  }

  lemma StillOnBus(b: Bus, i: nat, c: Bus)
    requires i < |b.pending| && (c.active == b.active || c.active.None?) && c.pending == Removed(b.pending, i)
    ensures forall p :: p in OnBus(c) ==> p in OnBus(b)
  {
    RemovedEntries(b.pending, i);
    forall p | p in OnBus(c)
      ensures p in OnBus(b)
    {
      if p in c.pending {
        var k :| 0 <= k < |c.pending| && c.pending[k] == p;
        assert b.pending[if k < i then k else k + 1] == p;
      }
    }
  }

  /** start_next: whether it is ours or another's, each transfer that cannot start is reported to its client. */
  lemma {:induction false} StackStartNextKeeps(s: Stack, extra: multiset<nat>)
    requires Mid(s, extra)
    ensures var u := StackStartNext(s);
      && Mid(u, extra) && (u.bus.active.Some? || u.bus.pending == [])
      && (s.driver.state != WaitingI2c ==> u.driver == s.driver)
    decreases |s.bus.pending|
  {
    var b := s.bus;
    assert DriverOk(s.driver);
    hide Mid, Start, StackNotify, Removed, Best, DriverOk;
    if b.active.None? && b.pending != [] {
      var best := Best(b.pending);
      var t := b.pending[best];
      var started := Start(b.(pending := Removed(b.pending, best)), t);
      if started.active.Some? {
        BestStarts(s, extra);
      } else {
        var told := StackNotify(s.(bus := started), t, TxFailed);
        BestFails(s, extra);
        if told.bus.active.None? {
          StackStartNextKeeps(told, extra);
        }
      }
    }
  }

  lemma BestStarts(s: Stack, extra: multiset<nat>)
    requires Mid(s, extra) && s.bus.active.None? && s.bus.pending != []
    requires var best := Best(s.bus.pending);
      Start(s.bus.(pending := Removed(s.bus.pending, best)), s.bus.pending[best]).active.Some?
    ensures var best := Best(s.bus.pending);
      Mid(s.(bus := Start(s.bus.(pending := Removed(s.bus.pending, best)), s.bus.pending[best])), extra)
  {
    var b := s.bus;
    var best := Best(b.pending);
    var started := Start(b.(pending := Removed(b.pending, best)), b.pending[best]);
    RemoveKeeps(b, best, extra);
    StartKeeps(b.(pending := Removed(b.pending, best)), b.pending[best], extra);
    assert started.active == Some(b.pending[best].(busGeneration := b.generation));
    assert started.pending == Removed(b.pending, best) && started.clients == b.clients
        && started.world.reactions == b.world.reactions;
    hide Start, Removed, Best, CoreInv, DriverOk, NextTransfer, Underway, FindClient, Truthful, Mine, OnBus;
    StartedMine(b, best, started, s.driver);
  }

  lemma BestFails(s: Stack, extra: multiset<nat>)
    requires Mid(s, extra) && s.bus.active.None? && s.bus.pending != []
    requires var best := Best(s.bus.pending);
      Start(s.bus.(pending := Removed(s.bus.pending, best)), s.bus.pending[best]).active.None?
    ensures var best := Best(s.bus.pending);
      var started := Start(s.bus.(pending := Removed(s.bus.pending, best)), s.bus.pending[best]);
      var told := StackNotify(s.(bus := started), s.bus.pending[best], TxFailed);
      && Mid(told, extra) && (s.driver.state != WaitingI2c ==> told.driver == s.driver)
      && (told.bus.active.None? ==> |told.bus.pending| < |s.bus.pending|)
  {
    var b := s.bus;
    var best := Best(b.pending);
    var t := b.pending[best];
    var started := Start(b.(pending := Removed(b.pending, best)), t);
    RemoveKeeps(b, best, extra);
    StartKeeps(b.(pending := Removed(b.pending, best)), t, extra);
    assert started.active.None? && started.pending == Removed(b.pending, best) && started.clients == b.clients
        && started.world.reactions == b.world.reactions;
    assert t in OnBus(b);
    Leaves(s, best, started, TxFailed, extra);
  }

  /** A waiting transfer leaves the queue without having begun, and its client hears of it. */
  lemma Leaves(s: Stack, i: nat, b: Bus, result: TransactionResult, extra: multiset<nat>)
    requires Mid(s, extra) && i < |s.bus.pending| && result != TxOk && s.bus.pending[i] in OnBus(s.bus)
    requires b.active == s.bus.active && b.pending == Removed(s.bus.pending, i)
    requires b.clients == s.bus.clients && b.world.reactions == s.bus.world.reactions
    requires CoreInv(b, extra + multiset{s.bus.pending[i].id}) && Registered(b, s.bus.pending[i])
    ensures DriverOk(s.driver)
    ensures var u := StackNotify(s.(bus := b), s.bus.pending[i], result);
      && Mid(u, extra) && (s.driver.state != WaitingI2c ==> u.driver == s.driver)
      && (s.bus.pending[i].request.clientId == Me(s) ==> s.driver.state == WaitingI2c && u.driver.state == FramIdle)
      && (s.bus.pending[i].request.clientId != Me(s) ==> u.driver == s.driver)
  {
    var t := s.bus.pending[i];
    WaitingForOwn(s, t, extra);
    hide *;
    if t.request.clientId == Me(s) {
      StillOnBus(s.bus, i, b);
      TakenOut(s, t, b, result, extra, extra);
      ReactKeeps(s.(bus := b), t, result, extra);
    } else {
      WithoutMine(s.bus, i, b, s.driver);
      OtherBusSameDriver(s, b, extra, extra + multiset{t.id});
      OtherNotifyKeeps(s.(bus := b), t, result, extra);
    }
  }

  lemma WaitingForOwn(s: Stack, t: Transaction, extra: multiset<nat>)
    requires Mid(s, extra) && t in OnBus(s.bus)
    ensures DriverOk(s.driver) && Mine(s.bus, s.driver)
    ensures t.request.clientId == Me(s) ==> s.driver.state == WaitingI2c
  {
    hide CoreInv, DriverOk, NextTransfer, Underway, FindClient, Truthful, OnBus;
  }

  lemma OtherBusSameDriver(s: Stack, b: Bus, e: multiset<nat>, e': multiset<nat>)
    requires Mid(s, e) && CoreInv(b, e') && Mine(b, s.driver)
    requires b.clients == s.bus.clients && b.world.reactions == s.bus.world.reactions
    ensures Mid(s.(bus := b), e')
  {
    hide CoreInv, DriverOk, NextTransfer, Underway, FindClient, Truthful, OnBus, Mine, OthersAct;
  }

  /** i2c_bus_cancel_client's sweep of the queue. */
  lemma {:induction false} StackCancelPendingKeeps(s: Stack, client: uint32, i: nat)
    requires Mid(s, multiset{})
    ensures var u := StackCancelPending(s, client, i);
      && Mid(u, multiset{}) && (client != Me(s) ==> u.driver == s.driver) && (s.bus.active.Some? ==> u.bus.active.Some?)
    decreases |s.bus.world.reactions|, |s.bus.pending| - i
  {
    var b := s.bus;
    MidDriver(s, multiset{});
    hide Mid, StackNotify, Removed, DriverOk;
    if i < |b.pending| {
      if b.pending[i].request.clientId != client {
        StackCancelPendingKeeps(s, client, i + 1);
      } else {
        CancelOne(s, i);
        var v := StackNotify(s.(bus := b.(pending := Removed(b.pending, i))), b.pending[i], TxCancelled);
        assert StackCancelPending(s, client, i) == StackCancelPending(v, client, i);
        hide StackCancelPending;
        StackCancelPendingKeeps(v, client, i);
      }
    }
  }

  lemma MidDriver(s: Stack, extra: multiset<nat>)
    requires Mid(s, extra)
    ensures DriverOk(s.driver) && |s.bus.pending| <= PENDING_CAPACITY
  {
    hide DriverOk, Partition, Mine, InProgress, BooksOk;
  }

  /** Cancelling our own: what waits is gone, what is active is still there. */
  lemma {:induction false} MyCancelSweeps(s: Stack, i: nat)
    requires DriverOk(s.driver) && FindClient(s.bus.clients, Me(s)).Some? && i <= |s.bus.pending|
    requires forall k :: 0 <= k < i ==> s.bus.pending[k].request.clientId != Me(s)
    ensures var u := StackCancelPending(s, Me(s), i);
      u.bus.active == s.bus.active && forall p :: p in u.bus.pending ==> p.request.clientId != Me(s)
    ensures (forall p :: p in s.bus.pending ==> p.request.clientId != Me(s)) ==> StackCancelPending(s, Me(s), i) == s
    decreases |s.bus.pending| - i
  {
    var b := s.bus;
    hide DriverOk, FindClient, React;
    if i < |b.pending| {
      if b.pending[i].request.clientId != Me(s) {
        MyCancelSweeps(s, i + 1);
      } else {
        var without := s.(bus := b.(pending := Removed(b.pending, i)));
        RemovedEntries(b.pending, i);
        var v := StackNotify(without, b.pending[i], TxCancelled);
        assert v.bus == Heard(without.bus, b.pending[i], TxCancelled);
        assert b.pending[i] in b.pending;
        hide StackNotify, Removed;
        MyCancelSweeps(v, i);
      }
    }
  }

  lemma CancelOne(s: Stack, i: nat)
    requires Mid(s, multiset{}) && i < |s.bus.pending|
    ensures DriverOk(s.driver)
    ensures var t := s.bus.pending[i];
      var u := StackNotify(s.(bus := s.bus.(pending := Removed(s.bus.pending, i))), t, TxCancelled);
      && Mid(u, multiset{})
      && (s.driver.state != WaitingI2c ==> u.driver == s.driver)
      && (t.request.clientId != Me(s) ==> u.driver == s.driver)
      && (t.request.clientId == Me(s) ==> u.driver.state == FramIdle)
  {
    RemoveKeeps(s.bus, i, multiset{});
    assert s.bus.pending[i] in OnBus(s.bus);
    hide Mid, CoreInv, OnBus, Removed, StackNotify;
    Leaves(s, i, s.bus.(pending := Removed(s.bus.pending, i)), TxCancelled, multiset{});
  }

  // ---------- The active transfer ends ----------

  lemma FinishOwn(s: Stack, t: Transaction, result: TransactionResult)
    requires Out(s, t, result, multiset{})
    ensures StackInv(Finish(s, t, result)) && (result != TxOk ==> Finish(s, t, result).driver.state == FramIdle)
  {
    ReactKeeps(s, t, result, multiset{});
    assert DriverOk(s.driver);
    hide Out, Mid, StackNotify, StackStartNext, DriverOk;
    StackStartNextKeeps(StackNotify(s, t, result), multiset{});
  }

  lemma FinishOther(s: Stack, t: Transaction, result: TransactionResult)
    requires Mid(s, multiset{t.id}) && Registered(s.bus, t) && t.request.clientId != Me(s)
    ensures StackInv(Finish(s, t, result))
    ensures s.driver.state != WaitingI2c ==> Finish(s, t, result).driver == s.driver
  {
    MidDriver(s, multiset{t.id});
    assert multiset{} + multiset{t.id} == multiset{t.id};
    hide Mid, StackNotify, StackStartNext, DriverOk, Registered;
    OtherNotifyKeeps(s, t, result, multiset{});
    StackStartNextKeeps(StackNotify(s, t, result), multiset{});
  }

  /** b is the bus of s with its active transfer taken off it. */
  predicate TakenOff(s: Stack, b: Bus) {
    && s.bus.active.Some? && b.active.None? && b.pending == s.bus.pending && b.clients == s.bus.clients
    && b.world.reactions == s.bus.world.reactions && CoreInv(b, multiset{s.bus.active.value.id})
    && Registered(b, s.bus.active.value)
  }

  lemma TakingOff(s: Stack)
    requires Mid(s, multiset{}) && s.bus.active.Some?
    ensures TakenOff(s, s.bus.(active := None)) && TakenOff(s, Aborted(s.bus))
  {
    EndKeeps(s.bus);
    hide CoreInv, Registered, DriverOk, Mine, InProgress, BooksOk;
  }

  /** Ours: its effect lands, and it is out of the bus. */
  lemma OwnEnds(s: Stack, b: Bus, result: TransactionResult, after: Media, received: seq<uint8>)
    requires Mid(s, multiset{}) && TakenOff(s, b) && s.bus.active.value.request.clientId == Me(s)
    requires Transferred(s.bus.active.value.request, result, s.media, after, received)
    ensures s.driver.state == WaitingI2c
    ensures Out(Landed(s, after, received).(bus := b), s.bus.active.value, result, multiset{})
  {
    var t := s.bus.active.value;
    assert t in OnBus(s.bus);
    assert s.driver.state == WaitingI2c && IsMine(t, s.driver) && InProgress(s) && DriverOk(s.driver);
    assert forall p :: p in OnBus(b) ==> p in OnBus(s.bus);
    assert multiset{} + multiset{t.id} == multiset{t.id};
    hide CoreInv, OnBus, DriverOk, NextTransfer, Underway, Transferred, Concludes, Landed, FindClient, Truthful, InProgress, IsMine;
    OutIsNone(b, multiset{}, s.driver, t);
    LandedConcludes(s, t, result, after, received);
    var l := Landed(s, after, received);
    LandedIs(s, after, received);
    ConcludesWithout(l, b, CompletionOf(t, result));
  }

  lemma LandedIs(s: Stack, after: Media, received: seq<uint8>)
    ensures var l := Landed(s, after, received);
      && l == s.(media := after, driver := l.driver) && l.driver.state == s.driver.state && l.driver.config == s.driver.config
      && l.driver.job.token == s.driver.job.token
  {
  }

  /** Another client's: ours is where it was. */
  lemma OtherEnds(s: Stack, b: Bus)
    requires Mid(s, multiset{}) && TakenOff(s, b) && s.bus.active.value.request.clientId != Me(s)
    ensures Mid(s.(bus := b), multiset{s.bus.active.value.id})
  {
    assert forall p :: p in OnBus(b) ==> p in OnBus(s.bus);
    assert forall p :: p in OnBus(s.bus) ==> p in OnBus(b) || p == s.bus.active.value;
    assert Mine(s.bus, s.driver) && DriverOk(s.driver);
    hide OnBus, CoreInv, DriverOk, Mine, Registered, NextTransfer;
    MineKeeps(s.bus, b, s.driver);
    OtherBusSameDriver(s, b, multiset{}, multiset{s.bus.active.value.id});
  }

  /** With ours active, none of ours waits. */
  lemma OnlyOne(s: Stack)
    requires Mid(s, multiset{}) && s.bus.active.Some? && s.bus.active.value.request.clientId == Me(s)
    ensures forall p :: p in s.bus.pending ==> p.request.clientId != Me(s)
  {
    var t := s.bus.active.value;
    var b := s.bus.(active := None);
    TakingOff(s);
    assert t in OnBus(s.bus) && OnBus(b) == b.pending;
    assert IsMine(t, s.driver);
    assert forall p :: p in OnBus(b) ==> p in OnBus(s.bus);
    assert multiset{} + multiset{t.id} == multiset{t.id};
    hide CoreInv, OnBus, DriverOk, NextTransfer, Registered, IsMine;
    OutIsNone(b, multiset{}, s.driver, t);
  }

  // ---------- Events ----------

  /** What a call of begin_operation comes to. */
  lemma BeginShape(d: Driver, op: Operation, address: uint16, buffer: seq<uint8>, length: uint16, token: Token,
                   deadline: uint64, answer: SubmitResult)
    requires DriverOk(d) && (op == ReadOperation || op == WriteOperation || (op == ProbeOperation && length == 2))
    requires op == ReadOperation || op == WriteOperation ==> |buffer| == length
    ensures var (t, result, outcome) := BeginOperation(d, op, address, buffer, length, token, deadline, answer);
      && DriverOk(t) && t.config == d.config
      && outcome.transfer == BeginOperation(d, op, address, buffer, length, token, deadline, NoCapacity).2.transfer
      && match outcome.transfer
         case None =>
           if result != PortAccepted then t == d && outcome.completion.None?
           else d.state == FramIdle == t.state && length == 0 && op != ProbeOperation && address <= SIZE_BYTES
                && outcome.completion == Some(IoCompletion(token, IoOk, 0, 0))
         case Some(r) =>
           && d.state == FramIdle && r.clientId == d.config.clientId && outcome.completion.None? && length > 0
           && if answer.Accepted? then
                && result == PortAccepted && t.state == WaitingI2c && t.job.transactionId == answer.id
                && r == NextTransfer(t) && t.job.token == token && t.job.operation == op
              else result != PortAccepted && t.state == FramIdle
  {
    BeginKeepsDriver(d, op, address, buffer, length, token, deadline, answer);
    var read := if op == ReadOperation then buffer else [];
    var write := if op == WriteOperation then buffer else [];
    var begun := d.(job := Job(op, token, address, address, length, 0, 0, deadline, 0, read, write, 0));
    SamePiece(begun, answer);
    assert NextTransfer(begun).clientId == d.config.clientId;
    hide NextTransfer, ConfigIsValid, ChunkLength, TokenIsValid;
  }

  lemma EmptyIsTruthful(r: Request, token: Token, m: Media, buffer: seq<uint8>)
    requires |m| == SIZE_BYTES && r.offset <= SIZE_BYTES && r.Length() == 0 == |buffer|
    ensures Truthful(Done(Some(r), IoCompletion(token, IoOk, 0, 0), m, m, buffer))
  {
    SpliceNothing(m, r.offset);
    if r.Write? {
      assert r.data == [];
    }
  }

  function Asking(op: Operation, address: uint16, buffer: seq<uint8>, length: uint16): Option<Request> {
    if op == WriteOperation then Some(Write(address, buffer))
    else if op == ReadOperation then Some(Read(address, length))
    else None
  }

  /** The operation is accepted and its first transfer is on the bus, or it is refused. */
  lemma BeginAsks(s: Stack, op: Operation, address: uint16, buffer: seq<uint8>, length: uint16, token: Token,
                  deadline: uint64, asked: BusRequest)
    requires StackInv(s) && (op == ReadOperation || op == WriteOperation || (op == ProbeOperation && length == 2))
    requires op == ReadOperation || op == WriteOperation ==> |buffer| == length
    requires DriverOk(s.driver)
    requires BeginOperation(s.driver, op, address, buffer, length, token, deadline, NoCapacity).2.transfer == Some(asked)
    ensures StackInv(StackBegin(s, op, address, buffer, length, token, deadline))
  {
    IdleFacts(s);
    hide *;
    var bus, answer := AskBus(s.bus, Me(s), Some(asked), multiset{});
    var d := BeginOperation(s.driver, op, address, buffer, length, token, deadline, answer).0;
    AsksIs(s, op, address, buffer, length, token, deadline, asked, bus, answer);
    BeginShape(s.driver, op, address, buffer, length, token, deadline, answer);
    SubmitLeavesActive(s.bus, asked);
    AskedIsMine(bus, d, Some(asked), answer, if answer.Accepted? then None else Some(IoCompletion(token, IoOk, 0, 0)));
    if answer.Accepted? {
      BegunUnderway(s.driver, op, address, buffer, length, token, deadline, answer, s.media);
    }
    AsksMid(s, bus, d, Asking(op, address, buffer, length), token, answer.Accepted?);
  }

  lemma IdleFacts(s: Stack)
    requires StackInv(s)
    ensures DriverOk(s.driver) && ConfigIsValid(s.driver.config) && |s.media| == SIZE_BYTES && CoreInv(s.bus, multiset{})
    ensures s.driver.state == FramIdle ==> NoneOf(s.bus, Me(s))
    ensures s.bus.pending != [] ==> s.bus.active.Some?
  {
    hide CoreInv, OnBus, NextTransfer, FindClient, Truthful, Underway, OthersAct, NoneOf;
  }

  lemma AsksIs(s: Stack, op: Operation, address: uint16, buffer: seq<uint8>, length: uint16, token: Token, deadline: uint64,
               asked: BusRequest, bus: Bus, answer: SubmitResult)
    requires DriverOk(s.driver) && (op == ReadOperation || op == WriteOperation || (op == ProbeOperation && length == 2))
    requires op == ReadOperation || op == WriteOperation ==> |buffer| == length
    requires BeginOperation(s.driver, op, address, buffer, length, token, deadline, NoCapacity).2.transfer == Some(asked)
    requires (bus, answer) == Submit(s.bus, asked)
    ensures StackBegin(s, op, address, buffer, length, token, deadline) ==
      var d := BeginOperation(s.driver, op, address, buffer, length, token, deadline, answer).0;
      if answer.Accepted? then
        s.(bus := bus, driver := d, request := Asking(op, address, buffer, length), origin := s.media,
           accepted := s.accepted + [token])
      else s.(bus := bus, driver := d)
  {
    BeginShape(s.driver, op, address, buffer, length, token, deadline, answer);
    hide DriverOk, NextTransfer, Submit, BeginOperation;
  }

  lemma AsksMid(s: Stack, bus: Bus, d: Driver, request: Option<Request>, token: Token, accepted: bool)
    requires StackInv(s) && s.driver.state == FramIdle && DriverOk(d) && d.config == s.driver.config
    requires CoreInv(bus, multiset{}) && Mine(bus, d) && (bus.pending != [] ==> bus.active.Some?)
    requires bus.clients == s.bus.clients && bus.world.reactions == s.bus.world.reactions
    requires if accepted then d.state == WaitingI2c && d.job.token == token else d.state == FramIdle
    requires accepted ==>
      match request
      case Some(r) => Underway(d, r, s.media, s.media)
      case None => d.job.operation == ProbeOperation
    ensures StackInv(
      if accepted then
        s.(bus := bus, driver := d, request := request, origin := s.media, accepted := s.accepted + [token])
      else s.(bus := bus, driver := d))
  {
    hide CoreInv, OnBus, DriverOk, NextTransfer, FindClient, Truthful, Mine, Underway, OthersAct, NoneOf, Tokens;
  }

  lemma BegunUnderway(d: Driver, op: Operation, address: uint16, buffer: seq<uint8>, length: uint16, token: Token,
                      deadline: uint64, answer: SubmitResult, m: Media)
    requires DriverOk(d) && |m| == SIZE_BYTES && ConfigIsValid(d.config) && length > 0
    requires op == ReadOperation || op == WriteOperation || (op == ProbeOperation && length == 2)
    requires op == ReadOperation || op == WriteOperation ==> |buffer| == length
    requires BeginOperation(d, op, address, buffer, length, token, deadline, answer).1 == PortAccepted
    ensures op == ReadOperation || op == WriteOperation ==>
      Underway(BeginOperation(d, op, address, buffer, length, token, deadline, answer).0,
               Asking(op, address, buffer, length).value, m, m)
  {
    if op == ReadOperation || op == WriteOperation {
      BeginStarts(d, Asking(op, address, buffer, length).value, buffer, token, deadline, answer, m);
    }
    hide BeginOperation, Underway, ConfigIsValid;
  }

  /** The operation is refused before anything else, or it is empty and completes at once. */
  lemma BeginAlone(s: Stack, op: Operation, address: uint16, buffer: seq<uint8>, length: uint16, token: Token,
                   deadline: uint64)
    requires StackInv(s) && (op == ReadOperation || op == WriteOperation || (op == ProbeOperation && length == 2))
    requires op == ReadOperation || op == WriteOperation ==> |buffer| == length
    requires DriverOk(s.driver)
    requires BeginOperation(s.driver, op, address, buffer, length, token, deadline, NoCapacity).2.transfer.None?
    ensures StackInv(StackBegin(s, op, address, buffer, length, token, deadline))
  {
    var (d, result, outcome) := BeginOperation(s.driver, op, address, buffer, length, token, deadline, NoCapacity);
    var u := StackBegin(s, op, address, buffer, length, token, deadline);
    BeginShape(s.driver, op, address, buffer, length, token, deadline, NoCapacity);
    var completion := IoCompletion(token, IoOk, 0, 0);
    assert u == if result != PortAccepted then s
      else s.(driver := d, request := Asking(op, address, buffer, length), origin := s.media, accepted := s.accepted + [token],
              done := s.done + [Done(Asking(op, address, buffer, length), completion, s.media, s.media, buffer)]);
    if result == PortAccepted {
      EmptyIsTruthful(Asking(op, address, buffer, length).value, token, s.media, buffer);
      assert Tokens(u.done) == Tokens(s.done) + [token];
      assert NoneOf(s.bus, Me(s));
    }
    hide CoreInv, OnBus, DriverOk, NextTransfer, StackBegin, FindClient, Truthful, Underway, OthersAct, NoneOf, BeginOperation, Tokens;
  }

  lemma StackBeginKeeps(s: Stack, op: Operation, address: uint16, buffer: seq<uint8>, length: uint16, token: Token,
                        deadline: uint64)
    requires StackInv(s) && (op == ReadOperation || op == WriteOperation || (op == ProbeOperation && length == 2))
    requires op == ReadOperation || op == WriteOperation ==> |buffer| == length
    ensures StackInv(StackBegin(s, op, address, buffer, length, token, deadline))
  {
    MidDriver(s, multiset{});
    hide *;
    var asked := BeginOperation(s.driver, op, address, buffer, length, token, deadline, NoCapacity).2.transfer;
    if asked.Some? {
      BeginAsks(s, op, address, buffer, length, token, deadline, asked.value);
    } else {
      BeginAlone(s, op, address, buffer, length, token, deadline);
    }
  }

  /** i2c_bus_cancel_client; if ours is active and meant, its effect has landed. */
  lemma CancelClientKeeps(s: Stack, client: uint32)
    requires StackInv(s)
    requires !(s.bus.active.Some? && s.bus.active.value.request.clientId == client == Me(s))
    ensures DriverOk(s.driver) && StackInv(StackCancelClient(s, client))
    ensures client == Me(s) ==> StackCancelClient(s, client).driver.state != WaitingI2c
  {
    MidDriver(s, multiset{});
    StackCancelPendingKeeps(s, client, 0);
    var u := StackCancelPending(s, client, 0);
    assert s.bus.active.None? ==> u == s;
    hide Mid, DriverOk, StackCancelPending, Aborted;
    if client == Me(s) {
      MineSwept(s);
    } else if u.bus.active.Some? && u.bus.active.value.request.clientId == client {
      TakingOff(u);
      OtherEnds(u, Aborted(u.bus));
      OffRegistered(u, Aborted(u.bus));
      hide TakenOff;
      FinishOther(u.(bus := Aborted(u.bus)), u.bus.active.value, TxCancelled);
    }
  }

  lemma OffRegistered(s: Stack, b: Bus)
    requires TakenOff(s, b)
    ensures Registered(b, s.bus.active.value)
  {
    hide CoreInv, Registered;
  }

  /** Sweeping our own client leaves the driver idle, unless ours is the active one. */
  lemma MineSwept(s: Stack)
    requires StackInv(s) && DriverOk(s.driver)
    requires s.bus.active.Some? ==> s.bus.active.value.request.clientId != Me(s)
    ensures var u := StackCancelPending(s, Me(s), 0);
      u.bus.active == s.bus.active && u.driver.state != WaitingI2c && StackCancelClient(s, Me(s)) == u
  {
    assert FindClient(s.bus.clients, Me(s)).Some?;
    MyCancelSweeps(s, 0);
    StackCancelPendingKeeps(s, Me(s), 0);
    var u := StackCancelPending(s, Me(s), 0);
    assert Mine(u.bus, u.driver) && Me(u) == Me(s);
    assert forall p :: p in OnBus(u.bus) ==> p.request.clientId != Me(s);
    hide CoreInv, DriverOk, NextTransfer, FindClient, Truthful, Underway, OthersAct, StackCancelPending, OnBus, BooksOk;
  }

  /** Ours is active and its client is cancelled: nothing else of ours waits. */
  lemma CancelActive(s: Stack, after: Media, received: seq<uint8>)
    requires StackInv(s) && s.bus.active.Some? && s.bus.active.value.request.clientId == Me(s)
    requires Transferred(s.bus.active.value.request, TxCancelled, s.media, after, received)
    ensures var l := Landed(s, after, received);
      && DriverOk(l.driver) && StackInv(StackCancelClient(l, Me(s))) && StackCancelClient(l, Me(s)).driver.state == FramIdle
  {
    var l := Landed(s, after, received);
    MidDriver(s, multiset{});
    OnlyOne(s);
    TakingOff(s);
    OwnEnds(s, Aborted(s.bus), TxCancelled, after, received);
    ReceivedKeepsDriver(s.driver, received);
    LandedIs(s, after, received);
    assert FindClient(s.bus.clients, Me(s)).Some?;
    hide Mid, DriverOk, StackCancelPending, Aborted, TakenOff, Landed, Transferred, Out, FindClient, StackInv, Finish;
    MyCancelSweeps(l, 0);
    FinishOwn(l.(bus := Aborted(s.bus)), s.bus.active.value, TxCancelled);
  }

  lemma SetGenerationKeeps(s: Stack, generation: uint32)
    requires StackInv(s) && s.driver.state != WaitingI2c && generation != 0
    ensures StackInv(s.(driver := s.driver.(clientGeneration := generation), bus := SetClientGeneration(s.bus, Me(s), generation).0))
  {
    StepKeeps(s.bus, SetGenerationEvent(Me(s), generation));
    FindWithGeneration(s.bus.clients, Me(s), generation, Me(s));
    var b := SetClientGeneration(s.bus, Me(s), generation).0;
    assert OnBus(b) == OnBus(s.bus) && b.world == s.bus.world && FindClient(b.clients, Me(s)).Some?;
    assert DriverOk(s.driver.(clientGeneration := generation)) by { hide ConfigIsValid; }
    hide CoreInv, OnBus, DriverOk, NextTransfer, FindClient, Truthful, Underway, OthersAct, SetClientGeneration, Tokens;
  }

  /** fram_cancel_generation when ours is not the active transfer. */
  lemma GenerationKeeps(s: Stack, generation: uint32)
    requires StackInv(s)
    requires generation != 0 && s.driver.state == WaitingI2c ==>
      !(s.bus.active.Some? && s.bus.active.value.request.clientId == Me(s))
    ensures DriverOk(s.driver) && StackInv(StackSetGeneration(s, generation))
  {
    MidDriver(s, multiset{});
    hide DriverOk, StackCancelClient, Mid;
    if generation != 0 && s.driver.state != Uninitialized {
      var u := if s.driver.state == WaitingI2c then StackCancelClient(s, Me(s)) else s;
      if s.driver.state == WaitingI2c {
        CancelClientKeeps(s, Me(s));
      }
      SetGenerationKeeps(u, generation);
    }
  }

  /** And when it is. */
  lemma GenerationEnds(s: Stack, generation: uint32, after: Media, received: seq<uint8>)
    requires StackInv(s) && s.bus.active.Some? && s.bus.active.value.request.clientId == Me(s) && generation != 0
    requires Transferred(s.bus.active.value.request, TxCancelled, s.media, after, received)
    ensures var l := Landed(s, after, received); DriverOk(l.driver) && StackInv(StackSetGeneration(l, generation))
  {
    var l := Landed(s, after, received);
    CancelActive(s, after, received);
    TakingOff(s);
    OwnEnds(s, Aborted(s.bus), TxCancelled, after, received);
    LandedIs(s, after, received);
    hide DriverOk, StackCancelClient, Mid, TakenOff, Out, Landed, Transferred, StackInv;
    SetGenerationKeeps(StackCancelClient(l, Me(s)), generation);
  }

  lemma BusEventKeeps(s: Stack, e: I2cBusSafety.Event)
    requires StackInv(s)
    requires e.SubmitEvent? ==> e.request.clientId != Me(s)
    requires e.SubmitEvent? || e.SetGenerationEvent? || e.RegisterEvent? || e.BindEvent?
    ensures StackInv(s.(bus := I2cBusSafety.Step(s.bus, e)))
  {
    BusFacts(s);
    hide *;
    BusInvKeeps(s.bus, e);
    BusEventPlaces(s.bus, e, Me(s));
    MineKeeps(s.bus, I2cBusSafety.Step(s.bus, e), s.driver);
    NewBus(s, I2cBusSafety.Step(s.bus, e));
  }

  lemma BusFacts(s: Stack)
    requires StackInv(s)
    ensures I2cBusSafety.Inv(s.bus) && DriverOk(s.driver) && Mine(s.bus, s.driver) && FindClient(s.bus.clients, Me(s)).Some?
  {
    hide CoreInv, DriverOk, Mine, InProgress, BooksOk, FindClient;
  }

  lemma BusInvKeeps(b: Bus, e: I2cBusSafety.Event)
    requires I2cBusSafety.Inv(b)
    ensures var c := I2cBusSafety.Step(b, e); CoreInv(c, multiset{}) && (c.pending != [] ==> c.active.Some?)
  {
    StepKeeps(b, e);
    hide CoreInv, I2cBusSafety.Step;
  }

  lemma NewBus(s: Stack, b: Bus)
    requires StackInv(s) && CoreInv(b, multiset{}) && (b.pending != [] ==> b.active.Some?)
    requires DriverOk(s.driver) && Mine(b, s.driver) && FindClient(b.clients, Me(s)).Some?
    requires b.world.reactions == s.bus.world.reactions
    ensures StackInv(s.(bus := b))
  {
    hide CoreInv, OnBus, DriverOk, Truthful, Underway, OthersAct, Mine, Tokens, FindClient;
  }

  lemma BusEventPlaces(b: Bus, e: I2cBusSafety.Event, me: uint32)
    requires FindClient(b.clients, me).Some?
    requires e.SubmitEvent? ==> e.request.clientId != me
    requires e.SubmitEvent? || e.SetGenerationEvent? || e.RegisterEvent? || e.BindEvent?
    ensures var c := I2cBusSafety.Step(b, e);
      && (forall p :: p in OnBus(b) && p.request.clientId == me ==> p in OnBus(c))
      && (forall p :: p in OnBus(c) && p.request.clientId == me ==> p in OnBus(b))
      && FindClient(c.clients, me).Some? && c.world.reactions == b.world.reactions
  {
    match e
    case SubmitEvent(r) =>
      SubmitPlaces(b, r);
      hide Submit, OnBus, FindClient;
    case SetGenerationEvent(client, generation) =>
      FindWithGeneration(b.clients, client, generation, me);
      assert OnBus(I2cBusSafety.Step(b, e)) == OnBus(b);
    case RegisterEvent(c) =>
      FindAfterRegister(b.clients, c, me);
      assert OnBus(I2cBusSafety.Step(b, e)) == OnBus(b);
    case BindEvent =>
      assert OnBus(I2cBusSafety.Step(b, e)) == OnBus(b);
  }

  /** The end of the active transfer by a completion, a deadline or a recovery. */
  lemma EndKeepsStack(s: Stack, b: Bus, result: TransactionResult, after: Media, received: seq<uint8>)
    requires StackInv(s) && TakenOff(s, b)
    requires s.bus.active.value.request.clientId == Me(s) ==>
      Transferred(s.bus.active.value.request, result, s.media, after, received)
    ensures var l := if s.bus.active.value.request.clientId == Me(s) then Landed(s, after, received) else s;
      DriverOk(l.driver) && StackInv(Finish(l.(bus := b), s.bus.active.value, result))
  {
    MidDriver(s, multiset{});
    OffRegistered(s, b);
    hide Mid, DriverOk, TakenOff, Landed, Transferred, Out, Finish;
    if s.bus.active.value.request.clientId == Me(s) {
      ReceivedKeeps(s, after, received);
      OwnEnds(s, b, result, after, received);
      FinishOwn(Landed(s, after, received).(bus := b), s.bus.active.value, result);
    } else {
      OtherEnds(s, b);
      FinishOther(s.(bus := b), s.bus.active.value, result);
    }
  }

  lemma ReceivedKeeps(s: Stack, after: Media, received: seq<uint8>)
    requires DriverOk(s.driver)
    ensures DriverOk(Landed(s, after, received).driver)
  {
    ReceivedKeepsDriver(s.driver, received);
    hide DriverOk, Received;
  }

  /** Recovering an idle bus ends a generation and nothing else. */
  lemma IdleRecoveryKeeps(s: Stack)
    requires StackInv(s) && s.bus.active.None?
    ensures DriverOk(s.driver) && StackInv(StackStartNext(s.(bus := s.bus.(generation := s.bus.generation + 1))))
  {
    BusFacts(s);
    IdleRecovers(s.bus);
    var b := s.bus.(generation := s.bus.generation + 1);
    assert s.bus.pending == [] && Recover(s.bus) == b && OnBus(b) == OnBus(s.bus);
    assert StackStartNext(s.(bus := b)) == s.(bus := b);
    hide CoreInv, OnBus, DriverOk, Truthful, Underway, OthersAct, Mine, Tokens, FindClient, NextTransfer, StackStartNext, IsMine;
    MineKeeps(s.bus, b, s.driver);
    NewBus(s, b);
  }

  lemma CompletionKeeps(s: Stack, e: StackEvent)
    requires StackInv(s) && Enabled(s, e) && e.CompletionEvent?
    ensures DriverOk(s.driver) && StackInv(StackStep(s, e))
  {
    MidDriver(s, multiset{});
    LandedBus(s, e.after, e.received);
    hide Mid, DriverOk, Finish, Transferred, TakenOff, Landed, StackInv;
    if Current(s.bus, e.completion) {
      InvMid(s);
      TakingOff(s);
      EndKeepsStack(s, s.bus.(active := None), e.completion.result, e.after, e.received);
    }
  }

  lemma InvMid(s: Stack)
    requires StackInv(s)
    ensures Mid(s, multiset{})
  {
    hide Mid;
  }

  lemma OverdueKeeps(s: Stack, e: StackEvent)
    requires StackInv(s) && Enabled(s, e) && e.OverdueEvent?
    ensures DriverOk(s.driver) && StackInv(StackStep(s, e))
  {
    MidDriver(s, multiset{});
    LandedBus(s, e.after, e.received);
    hide Mid, DriverOk, Finish, Transferred, TakenOff, Landed, StackInv, Aborted;
    if s.bus.active.Some? && e.now >= s.bus.active.value.request.deadline {
      InvMid(s);
      TakingOff(s);
      EndKeepsStack(s, Aborted(s.bus), TxTimeout, e.after, e.received);
    }
  }

  lemma RecoveryKeeps(s: Stack, e: StackEvent)
    requires StackInv(s) && Enabled(s, e) && e.RecoveryEvent?
    ensures DriverOk(s.driver) && StackInv(StackStep(s, e))
  {
    MidDriver(s, multiset{});
    LandedBus(s, e.after, e.received);
    hide Mid, DriverOk, Finish, Transferred, TakenOff, Landed, StackInv, Aborted, StackStartNext;
    if s.bus.active.Some? {
      InvMid(s);
      TakingOff(s);
      EndKeepsStack(s, Aborted(s.bus), TxCancelled, e.after, e.received);
    } else {
      IdleRecoveryKeeps(s);
    }
  }

  lemma LandedBus(s: Stack, after: Media, received: seq<uint8>)
    ensures Landed(s, after, received).bus == s.bus
  {
  }

  lemma CancellationKeeps(s: Stack, e: StackEvent)
    requires StackInv(s) && Enabled(s, e) && (e.CancellationEvent? || e.GenerationEvent?)
    ensures DriverOk(s.driver) && StackInv(StackStep(s, e))
  {
    MidDriver(s, multiset{});
    OwnActiveWaits(s);
    LandedBus(s, e.after, e.received);
    LandedIs(s, e.after, e.received);
    var own := s.bus.active.Some? && s.bus.active.value.request.clientId == Me(s);
    hide Mid, DriverOk, StackCancelClient, StackSetGeneration, Transferred, Landed, StackInv;
    match e
    case CancellationEvent(client, after, received) =>
      if own && client == Me(s) {
        CancelActive(s, after, received);
      } else {
        CancelClientKeeps(s, client);
      }
    case GenerationEvent(generation, after, received) =>
      if own && generation != 0 {
        GenerationEnds(s, generation, after, received);
      } else {
        GenerationKeeps(s, generation);
      }
  }

  lemma OwnActiveWaits(s: Stack)
    requires StackInv(s)
    ensures s.bus.active.Some? && s.bus.active.value.request.clientId == Me(s) ==> s.driver.state == WaitingI2c
  {
    if s.bus.active.Some? {
      assert s.bus.active.value in OnBus(s.bus);
      WaitingForOwn(s, s.bus.active.value, multiset{});
    }
    hide Mid, OnBus;
  }

  lemma StackStepKeeps(s: Stack, e: StackEvent)
    requires StackInv(s) && Enabled(s, e)
    ensures DriverOk(s.driver) && StackInv(StackStep(s, e))
  {
    MidDriver(s, multiset{});
    hide Mid, DriverOk, Transferred, StackBegin, StackInv;
    match e
    case BeginEvent(write, address, buffer, token, deadline) =>
      if |buffer| < 0x1_0000 {
        StackBeginKeeps(s, if write then WriteOperation else ReadOperation, address, buffer, |buffer|, token, deadline);
      }
    case ProbeEvent(token, deadline) => StackBeginKeeps(s, ProbeOperation, 0, [], 2, token, deadline);
    case BusEvent(event) => BusEventKeeps(s, event);
    case GenerationEvent(_, _, _) => CancellationKeeps(s, e);
    case CancellationEvent(_, _, _) => CancellationKeeps(s, e);
    case CompletionEvent(_, _, _) => CompletionKeeps(s, e);
    case OverdueEvent(_, _, _) => OverdueKeeps(s, e);
    case RecoveryEvent(_, _) => RecoveryKeeps(s, e);
  }

  // ---------- Runs ----------

  /** The driver has just been registered on a bus that is in order. */
  ghost predicate StackStart(s: Stack) {
    && I2cBusSafety.Inv(s.bus) && ConfigIsValid(s.driver.config) && s.driver == InitialDriver(s.driver.config)
    && FindClient(s.bus.clients, Me(s)).Some? && NoneOf(s.bus, Me(s)) && OthersAct(s.bus.world.reactions, Me(s))
    && |s.media| == SIZE_BYTES && s.accepted == [] && s.done == []
  }

  ghost predicate StackRun(s: Stack, events: seq<StackEvent>, end: Stack)
    decreases |events|
  {
    if events == [] then end == s
    else DriverOk(s.driver) && Enabled(s, events[0]) && StackRun(StackStep(s, events[0]), events[1..], end)
  }

  lemma StartIsInOrder(s: Stack)
    requires StackStart(s)
    ensures StackInv(s)
  {
    hide CoreInv, FindClient, OnBus;
  }

  lemma {:induction false} StackRunKeeps(s: Stack, events: seq<StackEvent>, end: Stack)
    requires StackInv(s) && StackRun(s, events, end)
    ensures StackInv(end)
    decreases |events|
  {
    hide StackInv, Enabled, DriverOk, StackStep;
    if events != [] {
      StackStepKeeps(s, events[0]);
      StackRunKeeps(StackStep(s, events[0]), events[1..], end);
    }
  }

  /** The number of transfers on the bus under an identifier. */
  function CountOnBus(b: Bus, id: nat): nat {
    multiset(Ids(b.pending))[id] + ActiveIds(b)[id]
  }

  lemma OneOnBus(b: Bus, p: Transaction)
    requires CoreInv(b, multiset{}) && p in OnBus(b)
    ensures CountOnBus(b, p.id) == 1
  {
    AscendingCounts(b.world.accepted, b.nextId, p.id);
    if p in b.pending {
      var i :| 0 <= i < |b.pending| && b.pending[i] == p;
      assert Ids(b.pending)[i] == p.id;
      assert p.id in multiset(Ids(b.pending));
    }
    hide Ids, NotifiedIds;
  }

  /** Over every run of operations, probes, completions, deadlines, recoveries, cancellations and changes of generation,
      whatever other clients do: the completions are those of the accepted operations, in order, exactly one each, and
      true to the contract; but for the last operation, which if it is not over has exactly one transfer on the bus, the
      one it waits for. An idle driver has none. */
  lemma EachOperationCompletesOnce(start: Stack, events: seq<StackEvent>, s: Stack)
    requires StackStart(start) && StackRun(start, events, s)
    ensures DriverOk(s.driver)
    ensures s.driver.state == FramIdle ==> s.accepted == Tokens(s.done) && NoneOf(s.bus, Me(s))
    ensures s.driver.state == WaitingI2c ==>
      && s.accepted == Tokens(s.done) + [s.driver.job.token] && CountOnBus(s.bus, s.driver.job.transactionId) == 1
      && (forall p :: p in OnBus(s.bus) ==>
            (p.request.clientId == Me(s) <==> p.id == s.driver.job.transactionId)
            && (p.request.clientId == Me(s) ==> p.request == NextTransfer(s.driver)))
    ensures s.driver.state == FramIdle || s.driver.state == WaitingI2c
    ensures forall x :: x in s.done ==> Truthful(x)
  {
    StartIsInOrder(start);
    StackRunKeeps(start, events, s);
    Conclusion(s);
  }

  lemma Conclusion(s: Stack)
    requires StackInv(s)
    ensures DriverOk(s.driver)
    ensures s.driver.state == FramIdle ==> s.accepted == Tokens(s.done) && NoneOf(s.bus, Me(s))
    ensures s.driver.state == WaitingI2c ==>
      && s.accepted == Tokens(s.done) + [s.driver.job.token] && CountOnBus(s.bus, s.driver.job.transactionId) == 1
      && (forall p :: p in OnBus(s.bus) ==>
            (p.request.clientId == Me(s) <==> p.id == s.driver.job.transactionId)
            && (p.request.clientId == Me(s) ==> p.request == NextTransfer(s.driver)))
    ensures s.driver.state == FramIdle || s.driver.state == WaitingI2c
    ensures forall x :: x in s.done ==> Truthful(x)
  {
    assert BooksOk(s) && Mine(s.bus, s.driver) && CoreInv(s.bus, multiset{}) && DriverOk(s.driver) && s.driver.state != Uninitialized;
    hide StackInv, Mid, CoreInv, OnBus, DriverOk, NextTransfer, Truthful, CountOnBus, Tokens;
    if s.driver.state == WaitingI2c {
      var p :| p in OnBus(s.bus) && p.request.clientId == Me(s);
      OneOnBus(s.bus, p);
      forall q | q in OnBus(s.bus) && q.id == p.id
        ensures q == p
      {
        SameId(s.bus, p, q);
      }
    }
  }

  lemma SameId(b: Bus, p: Transaction, q: Transaction)
    requires CoreInv(b, multiset{}) && p in OnBus(b) && q in OnBus(b) && p.id == q.id
    ensures p == q
  {
    OneOnBus(b, p);
    ActiveIsAnother(b, p.id);
    if p in b.pending && q in b.pending {
      var i :| 0 <= i < |b.pending| && b.pending[i] == p;
      var j :| 0 <= j < |b.pending| && b.pending[j] == q;
      TwoPlaces(Ids(b.pending), i, j);
      TwoPlaces(Ids(b.pending), j, i);
    }
    hide Ids, CoreInv;
  }

  lemma ActiveIsAnother(b: Bus, id: nat)
    requires CountOnBus(b, id) <= 1
    ensures b.active.Some? && b.active.value.id == id ==> forall p :: p in b.pending ==> p.id != id
  {
    if b.active.Some? && b.active.value.id == id {
      assert multiset(Ids(b.pending))[id] == 0;
      forall p | p in b.pending
        ensures p.id != id
      {
        var i :| 0 <= i < |b.pending| && b.pending[i] == p;
        assert Ids(b.pending)[i] == p.id && p.id in multiset(Ids(b.pending));
      }
    }
    hide Ids;
  }

  lemma TwoPlaces(s: seq<nat>, i: nat, j: nat)
    requires i < |s| && j < |s| && s[i] == s[j]
    ensures i < j ==> multiset(s)[s[i]] >= 2
  {
    if i < j {
      assert s == s[..i] + [s[i]] + s[i + 1..j] + [s[j]] + s[j + 1..];
    }
  }
}
