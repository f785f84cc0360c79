/** The F-RAM driver over the I2C bus manager, as one machine: the driver's callback runs inside the bus, submits the next
    transfer to it and takes its answer. Other clients share the bus; the device changes by the driver's transfers only. */
module FramOnBus {
  import opened Bits
  import opened Sequences
  import opened StorageRecord
  import opened StoragePort
  import opened I2cBusManager
  import opened I2cBusSafety
  import opened FramDriver
  import opened FramSafety

  /** An operation that is over: what was asked (None for a probe), its completion, the media before and after it, and the
      caller's buffer. */
  datatype Done = Done(
    request: Option<Request>, completion: IoCompletion, origin: Media, end: Media, buffer: seq<uint8>)

  /** Bus, driver and device; and, for the statements only, the operation in progress with the media it found, the tokens
      of the operations accepted so far, and the operations that are over. */
  datatype Stack = Stack(
    bus: Bus, driver: Driver, media: Media,
    request: Option<Request>, origin: Media, accepted: seq<Token>, done: seq<Done>)

  function Me(s: Stack): uint32 {
    s.driver.config.clientId
  }

  // ---------- The driver's callback inside the bus ----------

  lemma CallbackKeepsDriver(d: Driver, c: TxCompletion, answer: SubmitResult)
    requires DriverOk(d)
    ensures DriverOk(OnI2cCompletion(d, c, answer).0)
  {
    assert d.config.slaveBase % 2 == 0 && d.config.maxChunk > 0;
    hide ConfigIsValid, NextTransfer;
  }

  /** The driver hears of the end of its transfer. If it goes on, the bus answers its next request at once. */
  function React(s: Stack, c: TxCompletion): (u: Stack)
    requires DriverOk(s.driver)
    ensures DriverOk(u.driver) && u.driver.config == s.driver.config
    ensures u.bus.world.reactions == s.bus.world.reactions
    ensures u.bus.active.None? ==> s.bus.active.None? && u.bus.pending == s.bus.pending
    ensures c.result != TxOk ==> u.bus == s.bus
  {
    var asked := OnI2cCompletion(s.driver, c, NoCapacity).1.transfer;
    var (bus, answer) := if asked.Some? then Submit(s.bus, asked.value) else (s.bus, NoCapacity);
    var (d, outcome) := OnI2cCompletion(s.driver, c, answer);
    CallbackKeepsDriver(s.driver, c, answer);
    s.(bus := bus, driver := d,
       done := if outcome.completion.Some? then
                 s.done + [Done(s.request, outcome.completion.value, s.origin, s.media, s.driver.job.readBuffer)]
               else s.done)
  }

  function Heard(b: Bus, t: Transaction, result: TransactionResult): Bus {
    b.(world := b.world.(notified := b.world.notified + [CompletionOf(t, result)]))
  }

  /** notify. */
  function StackNotify(s: Stack, t: Transaction, result: TransactionResult): (u: Stack)
    requires DriverOk(s.driver)
    ensures DriverOk(u.driver) && u.driver.config == s.driver.config
    ensures u.bus.active.None? ==> s.bus.active.None? && u.bus.pending == s.bus.pending
    ensures result != TxOk ==>
      || |u.bus.world.reactions| < |s.bus.world.reactions|
      || (u.bus.world.reactions == s.bus.world.reactions && u.bus.pending == s.bus.pending)
  {
    if t.request.clientId == Me(s) && FindClient(s.bus.clients, Me(s)).Some? then
      React(s.(bus := Heard(s.bus, t, result)), CompletionOf(t, result))
    else s.(bus := Notify(s.bus, t, result))
  }

  /** start_next. */
  function StackStartNext(s: Stack): (u: Stack)
    requires DriverOk(s.driver)
    ensures DriverOk(u.driver) && u.driver.config == s.driver.config
    decreases |s.bus.pending|
  {
    var b := s.bus;
    if b.active.Some? || b.pending == [] then s
    else
      var best := Best(b.pending);
      var started := Start(b.(pending := Removed(b.pending, best)), b.pending[best]);
      if started.active.Some? then s.(bus := started)
      else
        var told := StackNotify(s.(bus := started), b.pending[best], TxFailed);
        if told.bus.active.Some? then told else StackStartNext(told)
  }

  function Finish(s: Stack, t: Transaction, result: TransactionResult): (u: Stack)
    requires DriverOk(s.driver)
    ensures DriverOk(u.driver) && u.driver.config == s.driver.config
  {
    StackStartNext(StackNotify(s, t, result))
  }

  /** i2c_bus_cancel_client, from position i of the queue on. */
  function StackCancelPending(s: Stack, client: uint32, i: nat): (u: Stack)
    requires DriverOk(s.driver)
    ensures DriverOk(u.driver) && u.driver.config == s.driver.config
    decreases |s.bus.world.reactions|, |s.bus.pending| - i
  {
    var b := s.bus;
    if i >= |b.pending| then s
    else if b.pending[i].request.clientId != client then StackCancelPending(s, client, i + 1)
    else
      var without := s.(bus := b.(pending := Removed(b.pending, i)));
      StackCancelPending(StackNotify(without, b.pending[i], TxCancelled), client, i)
  }

  function StackCancelClient(s: Stack, client: uint32): (u: Stack)
    requires DriverOk(s.driver)
    ensures DriverOk(u.driver) && u.driver.config == s.driver.config
  {
    var u := StackCancelPending(s, client, 0);
    if u.bus.active.None? || u.bus.active.value.request.clientId != client then u
    else Finish(u.(bus := Aborted(u.bus)), u.bus.active.value, TxCancelled)
  }

  // ---------- Events ----------

  datatype StackEvent =
    | BeginEvent(write: bool, address: uint16, buffer: seq<uint8>, token: Token, deadline: uint64)
    | ProbeEvent(token: Token, deadline: uint64)
    | GenerationEvent(generation: uint32, after: Media, received: seq<uint8>)
    | CompletionEvent(completion: TxCompletion, after: Media, received: seq<uint8>)
    | OverdueEvent(now: uint64, after: Media, received: seq<uint8>)
    | RecoveryEvent(after: Media, received: seq<uint8>)
    | CancellationEvent(client: uint32, after: Media, received: seq<uint8>)
    | BusEvent(event: I2cBusSafety.Event)

  /** The result with which the event ends the driver's transfer on the wire, if it does. */
  function EndsOwn(s: Stack, e: StackEvent): Option<TransactionResult> {
    if s.bus.active.None? || s.bus.active.value.request.clientId != Me(s) then None
    else
      match e
      case CompletionEvent(c, _, _) => if Current(s.bus, c) then Some(c.result) else None
      case OverdueEvent(now, _, _) => if now >= s.bus.active.value.request.deadline then Some(TxTimeout) else None
      case RecoveryEvent(_, _) => Some(TxCancelled)
      case CancellationEvent(client, _, _) => if client == Me(s) then Some(TxCancelled) else None
      case GenerationEvent(generation, _, _) =>
        if generation != 0 && s.driver.state == WaitingI2c then Some(TxCancelled) else None
      case _ => None
  }

  /** What the transfer did to the device and to the caller's buffer by the time it ends. */
  function Landed(s: Stack, after: Media, received: seq<uint8>): Stack {
    s.(media := after, driver := Received(s.driver, received))
  }

  /** Other clients submit in their own name, and a transfer does to the device what its bytes say. */
  ghost predicate Enabled(s: Stack, e: StackEvent) {
    && (EndsOwn(s, e).Some? ==>
          Transferred(s.bus.active.value.request, EndsOwn(s, e).value, s.media, e.after, e.received))
    && match e
       case BusEvent(SubmitEvent(r)) => r.clientId != Me(s)
       case BusEvent(e) => e.SetGenerationEvent? || e.RegisterEvent? || e.BindEvent?
       case _ => true
  }

  lemma ReceivedKeepsDriver(d: Driver, received: seq<uint8>)
    requires DriverOk(d)
    ensures DriverOk(Received(d, received)) && Received(d, received).config == d.config
  {
    hide ConfigIsValid;
  }

  lemma BeginKeepsDriver(d: Driver, op: Operation, address: uint16, buffer: seq<uint8>, length: uint16, token: Token,
                         deadline: uint64, answer: SubmitResult)
    requires DriverOk(d) && (op == ReadOperation || op == WriteOperation || (op == ProbeOperation && length == 2))
    requires op == ReadOperation || op == WriteOperation ==> |buffer| == length
    ensures DriverOk(BeginOperation(d, op, address, buffer, length, token, deadline, answer).0)
  {
    assert d.config.slaveBase % 2 == 0 && d.config.maxChunk > 0;
    hide ConfigIsValid, NextTransfer, TokenIsValid, RangeIsValid;
  }

  /** begin_operation, with the bus's answer to the first transfer. */
  function StackBegin(s: Stack, op: Operation, address: uint16, buffer: seq<uint8>, length: uint16, token: Token,
                      deadline: uint64): (u: Stack)
    requires DriverOk(s.driver) && (op == ReadOperation || op == WriteOperation || (op == ProbeOperation && length == 2))
    requires op == ReadOperation || op == WriteOperation ==> |buffer| == length
    ensures DriverOk(u.driver)
  {
    var asked := BeginOperation(s.driver, op, address, buffer, length, token, deadline, NoCapacity).2.transfer;
    var (bus, answer) := if asked.Some? then Submit(s.bus, asked.value) else (s.bus, NoCapacity);
    var (d, result, outcome) := BeginOperation(s.driver, op, address, buffer, length, token, deadline, answer);
    var request := if op == WriteOperation then Some(Write(address, buffer))
                   else if op == ReadOperation then Some(Read(address, length))
                   else None;
    BeginKeepsDriver(s.driver, op, address, buffer, length, token, deadline, answer);
    var u := s.(bus := bus, driver := d);
    if result != PortAccepted then u
    else
      u.(request := request, origin := s.media, accepted := s.accepted + [token],
         done := if outcome.completion.Some? then
                   s.done + [Done(request, outcome.completion.value, s.media, s.media, buffer)]
                 else s.done)
  }

  /** fram_cancel_generation. */
  function StackSetGeneration(s: Stack, generation: uint32): (u: Stack)
    requires DriverOk(s.driver)
    ensures DriverOk(u.driver)
  {
    if generation == 0 || s.driver.state == Uninitialized then s
    else
      var u := if s.driver.state == WaitingI2c then StackCancelClient(s, Me(s)) else s;
      u.(driver := u.driver.(clientGeneration := generation),
         bus := SetClientGeneration(u.bus, Me(s), generation).0)
  }

  function StackStep(s: Stack, e: StackEvent): (u: Stack)
    requires DriverOk(s.driver)
    ensures DriverOk(u.driver)
  {
    var l := if EndsOwn(s, e).Some? then (ReceivedKeepsDriver(s.driver, e.received); Landed(s, e.after, e.received)) else s;
    var b := l.bus;
    match e
    case BeginEvent(write, address, buffer, token, deadline) =>
      if |buffer| >= 0x1_0000 then l
      else StackBegin(l, if write then WriteOperation else ReadOperation, address, buffer, |buffer|, token, deadline)
    case ProbeEvent(token, deadline) => StackBegin(l, ProbeOperation, 0, [], 2, token, deadline)
    case GenerationEvent(generation, _, _) => StackSetGeneration(l, generation)
    case CompletionEvent(c, _, _) =>
      if !Current(b, c) then l else Finish(l.(bus := b.(active := None)), b.active.value, c.result)
    case OverdueEvent(now, _, _) =>
      if b.active.None? || now < b.active.value.request.deadline then l
      else Finish(l.(bus := Aborted(b)), b.active.value, TxTimeout)
    case RecoveryEvent(_, _) =>
      if b.active.None? then StackStartNext(l.(bus := b.(generation := b.generation + 1)))
      else Finish(l.(bus := Aborted(b)), b.active.value, TxCancelled)
    case CancellationEvent(client, _, _) => StackCancelClient(l, client)
    case BusEvent(event) => l.(bus := I2cBusSafety.Step(b, event))
  }
}
