/** The F-RAM driver, fram_driver.c: one storage operation at a time, as a chain of I2C transfers. */
module FramDriver {
  import opened Bits
  import opened StorageRecord
  import opened StoragePort
  import opened I2cBusManager

  const SIZE_BYTES: nat := 512
  const PAGE_BYTES: nat := 256
  const MAX_CHUNK_BYTES: nat := 32
  const ADDRESS_MASK: uint8 := 0x7E

  datatype Config = Config(clientId: uint32, slaveBase: uint8, maxChunk: nat, priority: uint8)

  datatype DriverState = Uninitialized | FramIdle | WaitingI2c

  datatype Operation = NoOperation | ProbeOperation | ReadOperation | WriteOperation

  datatype PortAnswer = PortAccepted | PortBusy | PortInvalidParam | PortOutOfRange | PortNotReady | PortNoCapacity

  /** What the driver remembers of its operation; reset to NO_JOB when the operation is over. */
  datatype Job = Job(
    operation: Operation, token: Token, start: nat, current: nat, requested: nat, transferred: nat, chunk: nat,
    deadline: uint64, transactionId: nat, readBuffer: seq<uint8>, writeBuffer: seq<uint8>, probePage: nat)

  const NO_JOB := Job(NoOperation, Token(0, 0, 0), 0, 0, 0, 0, 0, 0, 0, [], [], 0)

  datatype Driver = Driver(config: Config, state: DriverState, clientGeneration: uint32, job: Job)

  /** Bits 3 to 6 of the slave address are 1010, and bit 0, the block bit, is clear. */
  predicate ConfigIsValid(c: Config) {
    c.clientId != 0 && 0 < c.maxChunk <= MAX_CHUNK_BYTES && c.slaveBase / 8 % 16 == 0xA && c.slaveBase % 2 == 0
  }

  /** fram_init on a bus that takes the client. */
  function InitialDriver(c: Config): Driver {
    Driver(c, FramIdle, 1, NO_JOB)
  }

  predicate TokenIsValid(t: Token) {
    t.operationId != 0 && t.correlationId != 0 && t.ownerGeneration != 0
  }

  predicate RangeIsValid(address: uint16, length: uint16) {
    if length == 0 then address <= SIZE_BYTES else address < SIZE_BYTES && length <= SIZE_BYTES - address
  }

  /** The block bit of the address goes into bit 0 of the slave address, which is clear in the base. */
  function SlaveAddress(base: uint8, address: nat): uint8
    requires base % 2 == 0
  {
    base + address / PAGE_BYTES % 2
  }

  function Min(a: nat, b: nat): nat {
    if a < b then a else b
  }

  function ChunkLength(c: Config, job: Job): nat
    requires job.transferred <= job.requested
  {
    Min(Min(job.requested - job.transferred, c.maxChunk), PAGE_BYTES - job.current % PAGE_BYTES)
  }

  /** The next piece of the operation fits what is left of the caller's buffers. */
  predicate JobOk(job: Job) {
    && job.transferred <= job.requested
    && (job.operation == WriteOperation ==> |job.writeBuffer| == job.requested)
    && (job.operation == ReadOperation ==> |job.readBuffer| == job.requested)
  }

  predicate ChunkFits(job: Job) {
    job.transferred + job.chunk <= job.requested && (job.operation == ProbeOperation ==> job.chunk == 1)
  }

  /** The transfer for the next piece of the operation. */
  function NextTransfer(d: Driver): BusRequest
    requires JobOk(d.job) && d.config.slaveBase % 2 == 0
  {
    var job := d.job;
    var address := if job.operation == ProbeOperation then (if job.probePage == 0 then 0 else PAGE_BYTES) else job.current;
    var n := ChunkLength(d.config, job);
    var payload := if job.operation == WriteOperation then job.writeBuffer[job.transferred..job.transferred + n] else [];
    var rxLength := if job.operation == ProbeOperation then 1 else if job.operation == ReadOperation then n else 0;
    BusRequest(d.config.clientId, job.token.correlationId, d.clientGeneration, SlaveAddress(d.config.slaveBase, address),
               [address % PAGE_BYTES] + payload, rxLength, job.deadline, d.config.priority)
  }

  function MapSubmitResult(r: SubmitResult): PortAnswer {
    match r
    case Accepted(_) => PortAccepted
    case NoCapacity => PortNoCapacity
    case InvalidParam | AddressRejected => PortInvalidParam
    case NotReady | UnknownClient => PortNotReady
    case PortError => PortBusy
  }

  /** submit_current_chunk, with the bus's answer. */
  function SubmitCurrentChunk(d: Driver, answer: SubmitResult): (Driver, PortAnswer)
    requires JobOk(d.job)
  {
    var n := if d.job.operation == ProbeOperation then 1 else ChunkLength(d.config, d.job);
    var t := d.(job := d.job.(chunk := n));
    if answer.Accepted? then (t.(state := WaitingI2c, job := t.job.(transactionId := answer.id)), PortAccepted)
    else (t, MapSubmitResult(answer))
  }

  /** emit_completion: the one terminal completion of the operation, after which the driver is idle. */
  function Emit(d: Driver, result: IoResult): (Driver, IoCompletion) {
    (d.(state := FramIdle, job := NO_JOB), IoCompletion(d.job.token, result, d.job.requested, d.job.transferred))
  }

  function MapResult(r: TransactionResult): IoResult {
    match r
    case TxOk => IoOk
    case TxTimeout => IoTimeout
    case TxCancelled => IoCancelled
    case TxStale => IoStale
    case TxBusy | TxFailed => IoBusError
  }

  /** What a call does besides changing the driver: a transfer handed to the bus, a completion reported. */
  datatype Outcome = Outcome(transfer: Option<BusRequest>, completion: Option<IoCompletion>)

  const NOTHING := Outcome(None, None)

  /** begin_operation. For a read the buffer is the caller's, whatever it holds. */
  function BeginOperation(d: Driver, operation: Operation, address: uint16, buffer: seq<uint8>, length: uint16,
                          token: Token, deadline: uint64, answer: SubmitResult): (Driver, PortAnswer, Outcome)
    requires d.config.slaveBase % 2 == 0
    requires operation == ReadOperation || operation == WriteOperation ==> |buffer| == length
  {
    if d.state == Uninitialized then (d, PortNotReady, NOTHING)
    else if d.state != FramIdle then (d, PortBusy, NOTHING)
    else if !TokenIsValid(token) || deadline == 0 then (d, PortInvalidParam, NOTHING)
    else if !RangeIsValid(address, length) then (d, PortOutOfRange, NOTHING)
    else
      var read := if operation == ReadOperation then buffer else [];
      var write := if operation == WriteOperation then buffer else [];
      var begun := d.(job := Job(operation, token, address, address, length, 0, 0, deadline, 0, read, write, 0));
      if length == 0 then
        var (done, completion) := Emit(begun, IoOk);
        (done, PortAccepted, Outcome(None, Some(completion)))
      else
        var (t, result) := SubmitCurrentChunk(begun, answer);
        if result == PortAccepted then (t, PortAccepted, Outcome(Some(NextTransfer(begun)), None))
        else (t.(state := FramIdle, job := NO_JOB), result, Outcome(Some(NextTransfer(begun)), None))
  }

  predicate IsForActive(d: Driver, c: TxCompletion) {
    && d.state == WaitingI2c && c.clientId == d.config.clientId && c.id == d.job.transactionId
    && c.correlationId == d.job.token.correlationId && c.clientGeneration == d.clientGeneration
  }

  /** The next transfer of an operation in progress; if the bus refuses it, the operation ends there. */
  function Continue(d: Driver, answer: SubmitResult): (Driver, Outcome)
    requires JobOk(d.job) && d.config.slaveBase % 2 == 0
  {
    var (t, result) := SubmitCurrentChunk(d, answer);
    if result == PortAccepted then (t, Outcome(Some(NextTransfer(d)), None))
    else
      var (done, completion) := Emit(t, IoBusError);
      (done, Outcome(Some(NextTransfer(d)), Some(completion)))
  }

  /** fram_on_i2c_completion, with the bus's answer to the next transfer, if there is one. */
  function OnI2cCompletion(d: Driver, c: TxCompletion, answer: SubmitResult): (Driver, Outcome)
    requires JobOk(d.job) && d.config.slaveBase % 2 == 0
    requires d.state == WaitingI2c ==> ChunkFits(d.job)
  {
    if !IsForActive(d, c) then (d, NOTHING)
    else if MapResult(c.result) != IoOk then
      var (done, completion) := Emit(d, MapResult(c.result));
      (done, Outcome(None, Some(completion)))
    else if d.job.operation == ProbeOperation then
      var t := d.(job := d.job.(transferred := d.job.transferred + 1));
      if d.job.probePage == 0 then Continue(t.(job := t.job.(probePage := 1)), answer)
      else
        var (done, completion) := Emit(t, IoOk);
        (done, Outcome(None, Some(completion)))
    else
      var moved := d.job.transferred + d.job.chunk;
      var t := d.(job := d.job.(transferred := moved, current := d.job.start + moved));
      if moved < d.job.requested then Continue(t, answer)
      else
        var (done, completion) := Emit(t, IoOk);
        (done, Outcome(None, Some(completion)))
  }

  /** fram_cancel_generation: the bus reports the transfer in flight as cancelled before the generation changes. */
  function CancelGeneration(d: Driver, generation: uint32): (Driver, Outcome) {
    if generation == 0 || d.state == Uninitialized then (d, NOTHING)
    else if d.state == WaitingI2c then
      var (done, completion) := Emit(d, IoCancelled);
      (done.(clientGeneration := generation), Outcome(None, Some(completion)))
    else (d.(clientGeneration := generation), NOTHING)
  }

  /** The bytes of a read land in the caller's buffer as they come. */
  function Received(d: Driver, bytes: seq<uint8>): Driver {
    if d.job.operation == ReadOperation && d.job.transferred + |bytes| <= |d.job.readBuffer| then
      d.(job := d.job.(readBuffer := Spliced(d.job.readBuffer, d.job.transferred, bytes)))
    else d
  }
}
