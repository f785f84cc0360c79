/** The driver over its device meets the storage contract: an operation that was accepted ends with one completion, and
    what it then promises about the media is StoragePort.Effect. */
module FramSafety {
  import opened Bits
  import opened StorageRecord
  import opened StoragePort
  import opened I2cBusManager
  import opened FramDriver

  // ---------- The device ----------

  /** The byte named by a transfer: bit 0 of the slave address selects the block, the first byte sent the place in it. */
  function NamedAddress(r: BusRequest): nat
    requires r.tx != []
  {
    r.slaveAddress % 2 * PAGE_BYTES + r.tx[0]
  }

  function Span(r: BusRequest): nat
    requires r.tx != []
  {
    r.rxLength + |r.tx| - 1
  }

  predicate StaysInBlock(r: BusRequest) {
    r.tx != [] && r.tx[0] + Span(r) <= PAGE_BYTES
  }

  /** What a transfer does to the device. One that runs past the end of its block may do anything. */
  ghost predicate Transferred(r: BusRequest, result: TransactionResult, before: Media, after: Media, received: seq<uint8>) {
    && |after| == |before| == SIZE_BYTES && |received| == r.rxLength
    && (StaysInBlock(r) ==>
          var at := NamedAddress(r);
          if r.rxLength > 0 then after == before && (result == TxOk ==> received == before[at..at + r.rxLength])
          else MaybeWritten(before, after, at, r.tx[1..]) && (result == TxOk ==> after == Spliced(before, at, r.tx[1..])))
  }

  // ---------- Chunks ----------

  /** A data operation with something left to do. */
  predicate DataJob(d: Driver) {
    && ConfigIsValid(d.config) && JobOk(d.job) && d.job.transferred < d.job.requested
    && (d.job.operation == ReadOperation || d.job.operation == WriteOperation)
    && d.job.current == d.job.start + d.job.transferred && d.job.start + d.job.requested <= SIZE_BYTES
  }

  /** Every transfer names the logical address, stays in its block, fits the bus buffer and moves at least one byte
      that was asked for. */
  lemma TransferOfChunk(d: Driver)
    requires DataJob(d)
    ensures var (r, n) := (NextTransfer(d), ChunkLength(d.config, d.job));
      && 0 < n <= d.config.maxChunk && n <= d.job.requested - d.job.transferred
      && StaysInBlock(r) && NamedAddress(r) == d.job.current && Span(r) == n
      && r.slaveAddress == d.config.slaveBase + (if d.job.current < PAGE_BYTES then 0 else 1)
      && (d.job.operation == WriteOperation ==>
            r.rxLength == 0 && r.tx[1..] == d.job.writeBuffer[d.job.transferred..d.job.transferred + n])
      && (d.job.operation == ReadOperation ==> r.rxLength == n && |r.tx| == 1)
  {
    var (job, n) := (d.job, ChunkLength(d.config, d.job));
    assert job.current == job.current / PAGE_BYTES * PAGE_BYTES + job.current % PAGE_BYTES;
    assert job.current / PAGE_BYTES == if job.current < PAGE_BYTES then 0 else 1;
    assert (d.config.slaveBase + job.current / PAGE_BYTES % 2) % 2 == job.current / PAGE_BYTES % 2;
    var payload := job.writeBuffer;
    if job.operation == WriteOperation {
      assert ([job.current % PAGE_BYTES] + payload[job.transferred..job.transferred + n])[1..] == payload[job.transferred..job.transferred + n];
    }
  }

  /** The bus, which compares addresses under the registered mask, takes them all. */
  lemma AddressesAreAccepted(c: Config, address: nat, generation: uint32)
    requires ConfigIsValid(c)
    ensures AcceptsAddress(Client(c.clientId, generation, c.slaveBase, ADDRESS_MASK), SlaveAddress(c.slaveBase, address))
  {
    var sent := SlaveAddress(c.slaveBase, address);
    assert sent / 2 == c.slaveBase / 2;
    assert And(sent, 0x7E) == 2 * And(sent / 2, 0x3F);
    assert And(c.slaveBase, 0x7E) == 2 * And(c.slaveBase / 2, 0x3F);
  }

  /** Of all the transfers on the bus, the driver takes the report of the one it waits for and of no other. */
  lemma TakesOwnReport(d: Driver, t: Transaction, result: TransactionResult)
    requires d.state == WaitingI2c && JobOk(d.job) && d.config.slaveBase % 2 == 0
    requires t.id == d.job.transactionId ==> t.request == NextTransfer(d)
    ensures IsForActive(d, CompletionOf(t, result)) <==> t.id == d.job.transactionId
  {
    hide SlaveAddress, ChunkLength;
  }

  // ---------- One operation ----------

  /** An operation in progress on origin: what was transferred so far is exactly the front of what was asked for. */
  ghost predicate Underway(d: Driver, request: Request, origin: Media, media: Media) {
    && DataJob(d) && d.state == WaitingI2c && d.job.chunk == ChunkLength(d.config, d.job)
    && |origin| == |media| == SIZE_BYTES
    && match request
       case Write(offset, data) =>
         && d.job.operation == WriteOperation && d.job.start == offset && d.job.writeBuffer == data
         && d.job.requested == |data| && media == Spliced(origin, offset, data[..d.job.transferred])
       case Read(offset, size) =>
         && d.job.operation == ReadOperation && d.job.start == offset && d.job.requested == size && media == origin
         && d.job.readBuffer[..d.job.transferred] == origin[offset..offset + d.job.transferred]
  }

  lemma SpliceNothing(m: Media, offset: nat)
    requires offset <= |m|
    ensures Spliced(m, offset, []) == m
  {
  }

  /** Writing the next piece after the front gives the longer front. */
  lemma SpliceGrows(m: Media, offset: nat, data: seq<uint8>, k: nat, n: nat)
    requires offset + |data| <= |m| && k + n <= |data|
    ensures Spliced(Spliced(m, offset, data[..k]), offset + k, data[k..k + n]) == Spliced(m, offset, data[..k + n])
  {
    var (a, b) := (Spliced(Spliced(m, offset, data[..k]), offset + k, data[k..k + n]), Spliced(m, offset, data[..k + n]));
    forall i | 0 <= i < |m|
      ensures a[i] == b[i]
    {
    }
    assert a == b;
  }

  /** A torn piece after a complete front is a torn whole. */
  lemma TornPiece(m: Media, m': Media, offset: nat, data: seq<uint8>, k: nat, n: nat)
    requires offset + |data| <= |m| && k + n <= |data|
    requires MaybeWritten(Spliced(m, offset, data[..k]), m', offset + k, data[k..k + n])
    ensures MaybeWritten(m, m', offset, data)
  {
    var s := Spliced(m, offset, data[..k]);
    assert forall i :: 0 <= i < |m| ==> s[i] == if offset <= i < offset + k then data[i - offset] else m[i];
    hide Spliced;
  }

  lemma FrontIsTorn(m: Media, offset: nat, data: seq<uint8>)
    requires offset + |data| <= |m|
    ensures MaybeWritten(m, Spliced(m, offset, data), offset, data)
  {
  }

  /** An accepted data operation is under way, with its first transfer on the bus. */
  lemma BeginStarts(d: Driver, request: Request, buffer: seq<uint8>, token: Token, deadline: uint64, answer: SubmitResult,
                    media: Media)
    requires ConfigIsValid(d.config) && |media| == SIZE_BYTES && 0 < request.Length() == |buffer| < 0x1_0000
    requires request.offset < 0x1_0000 && (request.Write? ==> buffer == request.data)
    ensures var op := if request.Read? then ReadOperation else WriteOperation;
      var (t, accepted, outcome) := BeginOperation(d, op, request.offset, buffer, |buffer|, token, deadline, answer);
      if accepted == PortAccepted then
        Underway(t, request, media, media) && outcome == Outcome(Some(NextTransfer(t)), None)
        && t.job.token == token && t.job.transferred == 0
      else t.state == d.state && outcome.completion.None?
  {
    var op := if request.Read? then ReadOperation else WriteOperation;
    var (read, write) := if request.Read? then (buffer, []) else ([], buffer);
    assert d.config.slaveBase % 2 == 0;
    SamePiece(d.(job := Job(op, token, request.offset, request.offset, |buffer|, 0, 0, deadline, 0, read, write, 0)),
              answer);
    if request.Write? {
      SpliceNothing(media, if request.offset <= |media| then request.offset else 0);
      assert request.data[..0] == [];
    }
    hide And, SlaveAddress, NextTransfer, ChunkLength, ConfigIsValid, TokenIsValid, Spliced;
  }

  /** The next transfer does not depend on the piece and the transaction noted down for it. */
  lemma SamePiece(d: Driver, answer: SubmitResult)
    requires JobOk(d.job) && d.config.slaveBase % 2 == 0
    ensures var t := SubmitCurrentChunk(d, answer).0;
      ChunkLength(t.config, t.job) == ChunkLength(d.config, d.job) && NextTransfer(t) == NextTransfer(d)
  {
    hide SlaveAddress;
  }

  /** Where the driver is after the report of its transfer, with the bytes read in place. */
  function Reported(d: Driver, c: TxCompletion, received: seq<uint8>, answer: SubmitResult): (Driver, Outcome)
    requires DataJob(d) && ChunkFits(d.job)
  {
    OnI2cCompletion(Received(d, received), c, answer)
  }

  /** The report of one transfer: either the next piece is under way, or the operation ends and its completion tells
      the truth about the whole. */
  ghost predicate PieceResult(d: Driver, request: Request, origin: Media, media: Media, c: TxCompletion,
                              received: seq<uint8>, answer: SubmitResult)
    requires DataJob(d) && ChunkFits(d.job)
  {
    var (t, outcome) := Reported(d, c, received, answer);
    match outcome.completion
    case None =>
      && Underway(t, request, origin, media) && outcome.transfer == Some(NextTransfer(t))
      && t.job.token == d.job.token && t.job.transferred > d.job.transferred
    case Some(completion) =>
      && t.state == FramIdle && completion.token == d.job.token && completion.requestedLength == request.Length()
      && (IsComplete(completion) <==> completion.result == IoOk)
      && Effect(request, completion, origin, media, Received(d, received).job.readBuffer)
  }

  /** The driver with the piece in flight counted as done. */
  function Moved(d: Driver): Driver {
    var moved := d.job.transferred + d.job.chunk;
    d.(job := d.job.(transferred := moved, current := d.job.start + moved))
  }

  /** The four ways a report can go. */
  lemma ReportCases(d: Driver, c: TxCompletion, answer: SubmitResult)
    requires DataJob(d) && ChunkFits(d.job) && IsForActive(d, c)
    ensures var (t, outcome) := OnI2cCompletion(d, c, answer);
      var m := Moved(d);
      if c.result != TxOk then
        t.state == FramIdle && MapResult(c.result) != IoOk
        && outcome.completion == Some(IoCompletion(d.job.token, MapResult(c.result), d.job.requested, d.job.transferred))
      else if m.job.transferred == d.job.requested then
        t.state == FramIdle
        && outcome.completion == Some(IoCompletion(d.job.token, IoOk, d.job.requested, d.job.requested))
      else if answer.Accepted? then
        && DataJob(m) && outcome == Outcome(Some(NextTransfer(m)), None)
        && t == m.(state := WaitingI2c, job := m.job.(chunk := ChunkLength(m.config, m.job), transactionId := answer.id))
        && NextTransfer(t) == NextTransfer(m)
      else
        t.state == FramIdle
        && outcome.completion == Some(IoCompletion(d.job.token, IoBusError, d.job.requested, m.job.transferred))
  {
    assert d.config.slaveBase % 2 == 0;
    hide ConfigIsValid;
  }

  lemma WritePiece(d: Driver, request: Request, origin: Media, media: Media, c: TxCompletion, after: Media,
                   received: seq<uint8>, answer: SubmitResult)
    requires Underway(d, request, origin, media) && IsForActive(d, c) && request.Write?
    requires Transferred(NextTransfer(d), c.result, media, after, received)
    ensures PieceResult(d, request, origin, after, c, received, answer)
  {
    WriteUnderway(d, request, origin, media);
    WriteFacts(d, request, origin, media, c.result, after, received);
    ReportCases(d, c, answer);
    assert request.data[..d.job.requested] == request.data;
    assert Received(d, received) == d;
    hide Spliced, MaybeWritten, Transferred, NextTransfer, ConfigIsValid, OnI2cCompletion, ChunkLength, Received;
  }

  lemma WriteFacts(d: Driver, request: Request, origin: Media, media: Media, result: TransactionResult, after: Media,
                   received: seq<uint8>)
    requires request.Write? && DataJob(d) && d.job.operation == WriteOperation && d.job.chunk == ChunkLength(d.config, d.job)
    requires |media| == |origin| == SIZE_BYTES && d.job.writeBuffer == request.data
    requires d.job.current == request.offset + d.job.transferred && d.job.transferred + d.job.chunk <= |request.data|
    requires request.offset + |request.data| <= |origin|
    requires media == Spliced(origin, request.offset, request.data[..d.job.transferred])
    requires Transferred(NextTransfer(d), result, media, after, received)
    ensures MaybeWritten(origin, after, request.offset, request.data) && ChunkFits(d.job)
    ensures result == TxOk ==> after == Spliced(origin, request.offset, request.data[..d.job.transferred + d.job.chunk])
  {
    hide *;
    ChunkEffect(d, result, media, after, received);
    PieceGrows(origin, media, after, request.offset, request.data, d.job.transferred, d.job.chunk, result == TxOk);
  }

  lemma WriteUnderway(d: Driver, request: Request, origin: Media, media: Media)
    requires Underway(d, request, origin, media) && request.Write?
    ensures DataJob(d) && d.job.operation == WriteOperation && d.job.chunk == ChunkLength(d.config, d.job)
    ensures |media| == |origin| == SIZE_BYTES && d.job.writeBuffer == request.data
    ensures d.job.current == request.offset + d.job.transferred && d.job.transferred + d.job.chunk <= |request.data|
    ensures request.offset + |request.data| <= |origin|
    ensures media == Spliced(origin, request.offset, request.data[..d.job.transferred])
  {
    hide Spliced;
  }

  /** A complete front and then a piece, torn or complete. */
  lemma PieceGrows(origin: Media, media: Media, after: Media, offset: nat, data: seq<uint8>, k: nat, n: nat, complete: bool)
    requires offset + |data| <= |origin| && k + n <= |data| && media == Spliced(origin, offset, data[..k])
    requires MaybeWritten(media, after, offset + k, data[k..k + n])
    requires complete ==> after == Spliced(media, offset + k, data[k..k + n])
    ensures MaybeWritten(origin, after, offset, data)
    ensures complete ==> after == Spliced(origin, offset, data[..k + n])
  {
    TornPiece(origin, after, offset, data, k, n);
    SpliceGrows(origin, offset, data, k, n);
    hide Spliced, MaybeWritten;
  }

  /** What the transfer of one piece of a write does to the media. */
  lemma ChunkEffect(d: Driver, result: TransactionResult, media: Media, after: Media, received: seq<uint8>)
    requires DataJob(d) && d.job.operation == WriteOperation && d.job.chunk == ChunkLength(d.config, d.job)
    requires |media| == SIZE_BYTES && Transferred(NextTransfer(d), result, media, after, received)
    ensures ChunkFits(d.job)
    ensures var piece := d.job.writeBuffer[d.job.transferred..d.job.transferred + d.job.chunk];
      MaybeWritten(media, after, d.job.current, piece) && (result == TxOk ==> after == Spliced(media, d.job.current, piece))
  {
    TransferOfChunk(d);
    hide NextTransfer, ConfigIsValid, Spliced, MaybeWritten, StaysInBlock, NamedAddress, ChunkLength;
  }

  lemma ReadPiece(d: Driver, request: Request, origin: Media, media: Media, c: TxCompletion, after: Media,
                  received: seq<uint8>, answer: SubmitResult)
    requires Underway(d, request, origin, media) && IsForActive(d, c) && request.Read?
    requires Transferred(NextTransfer(d), c.result, media, after, received)
    ensures PieceResult(d, request, origin, after, c, received, answer)
  {
    ReadFacts(d, request, origin, media, c.result, after, received);
    var r := Received(d, received);
    hide Received, Transferred, NextTransfer, ConfigIsValid, OnI2cCompletion, ChunkLength;
    ReportCases(r, c, answer);
  }

  lemma ReadFacts(d: Driver, request: Request, origin: Media, media: Media, result: TransactionResult, after: Media,
                  received: seq<uint8>)
    requires Underway(d, request, origin, media) && request.Read?
    requires Transferred(NextTransfer(d), result, media, after, received)
    ensures var (r, moved) := (Received(d, received), d.job.transferred + d.job.chunk);
      && after == origin && ChunkFits(d.job) && DataJob(r)
      && r == d.(job := d.job.(readBuffer := r.job.readBuffer)) && |r.job.readBuffer| == request.size
      && (result == TxOk ==>
            && r.job.readBuffer[..moved] == origin[request.offset..request.offset + moved]
            && (moved == request.size ==> r.job.readBuffer == origin[request.offset..request.offset + request.size]))
  {
    TransferOfChunk(d);
    var k := d.job.transferred;
    hide NextTransfer, ConfigIsValid;
    assert |received| == d.job.chunk;
    if result == TxOk {
      ReadGrows(d.job.readBuffer, origin, request.offset, k, received);
    }
    hide Spliced;
  }

  lemma ReadGrows(buffer: seq<uint8>, origin: Media, offset: nat, k: nat, received: seq<uint8>)
    requires k + |received| <= |buffer| && offset + |buffer| <= |origin|
    requires buffer[..k] == origin[offset..offset + k] && received == origin[offset + k..offset + k + |received|]
    ensures var b := Spliced(buffer, k, received); b[..k + |received|] == origin[offset..offset + k + |received|]
    ensures k + |received| == |buffer| ==> Spliced(buffer, k, received) == origin[offset..offset + |buffer|]
  {
    var b := Spliced(buffer, k, received);
    assert b[..k + |received|] == buffer[..k] + received;
    assert origin[offset..offset + k + |received|] == origin[offset..offset + k] + received;
    assert k + |received| == |buffer| ==> b == b[..k + |received|];
  }

  // ---------- Whole operations ----------

  datatype Piece = Piece(completion: TxCompletion, after: Media, received: seq<uint8>, answer: SubmitResult)

  /** The reports of an operation's transfers, up to and including the one that ends it with result. */
  ghost predicate Chain(d: Driver, media: Media, pieces: seq<Piece>, result: IoCompletion, end: Media, buffer: seq<uint8>)
    decreases |pieces|
  {
    && pieces != [] && DataJob(d) && ChunkFits(d.job)
    && IsForActive(d, pieces[0].completion)
    && Transferred(NextTransfer(d), pieces[0].completion.result, media, pieces[0].after, pieces[0].received)
    && var (t, outcome) := Reported(d, pieces[0].completion, pieces[0].received, pieces[0].answer);
    if |pieces| == 1 then
      outcome.completion == Some(result) && end == pieces[0].after && buffer == Received(d, pieces[0].received).job.readBuffer
    else outcome.completion.None? && Chain(t, pieces[0].after, pieces[1..], result, end, buffer)
  }

  /** However its transfers turn out and wherever it is cut short, the operation meets the contract of its port. */
  lemma {:induction false} ChainMeetsContract(d: Driver, request: Request, origin: Media, media: Media,
      pieces: seq<Piece>, result: IoCompletion, end: Media, buffer: seq<uint8>)
    requires Underway(d, request, origin, media) && Chain(d, media, pieces, result, end, buffer)
    ensures Effect(request, result, origin, end, buffer) && (IsComplete(result) <==> result.result == IoOk)
    ensures result.token == d.job.token && result.requestedLength == request.Length()
    ensures |pieces| <= request.Length() - d.job.transferred
    decreases |pieces|
  {
    var p := pieces[0];
    if request.Write? {
      WritePiece(d, request, origin, media, p.completion, p.after, p.received, p.answer);
    } else {
      ReadPiece(d, request, origin, media, p.completion, p.after, p.received, p.answer);
    }
    assert d.job.transferred < request.Length();
    hide Effect, Transferred, Reported, DataJob, NextTransfer, Received;
    if |pieces| > 1 {
      var t := Reported(d, p.completion, p.received, p.answer).0;
      ChainMeetsContract(t, request, origin, p.after, pieces[1..], result, end, buffer);
    }
  }

  /** From the call that was accepted to the terminal completion: the bytes [offset, offset + length) and no others,
      all of them when the result is OK. */
  lemma OperationMeetsContract(d: Driver, request: Request, buffer: seq<uint8>, token: Token, deadline: uint64,
      answer: SubmitResult, media: Media, pieces: seq<Piece>, result: IoCompletion, end: Media, filled: seq<uint8>)
    requires ConfigIsValid(d.config) && |media| == SIZE_BYTES && 0 < request.Length() == |buffer| < 0x1_0000
    requires request.offset < 0x1_0000 && (request.Write? ==> buffer == request.data)
    requires var op := if request.Read? then ReadOperation else WriteOperation;
      var (t, accepted, _) := BeginOperation(d, op, request.offset, buffer, |buffer|, token, deadline, answer);
      accepted == PortAccepted && Chain(t, media, pieces, result, end, filled)
    ensures Effect(request, result, media, end, filled) && result.token == token
    ensures (IsComplete(result) <==> result.result == IoOk) && |pieces| <= request.Length()
  {
    BeginStarts(d, request, buffer, token, deadline, answer, media);
    var op := if request.Read? then ReadOperation else WriteOperation;
    var t := BeginOperation(d, op, request.offset, buffer, |buffer|, token, deadline, answer).0;
    hide BeginOperation, Chain, Effect, DataJob, NextTransfer;
    ChainMeetsContract(t, request, media, media, pieces, result, end, filled);
  }

  /** From any point of an operation its transfers can go well to the end: the contract is not met by failing. */
  lemma {:induction false} OperationCanComplete(d: Driver, request: Request, origin: Media, media: Media)
      returns (pieces: seq<Piece>, result: IoCompletion, end: Media, buffer: seq<uint8>)
    requires Underway(d, request, origin, media)
    ensures Chain(d, media, pieces, result, end, buffer) && result.result == IoOk
    decreases request.Length() - d.job.transferred
  {
    var p := NextPiece(d, request, origin, media);
    var (t, outcome) := Reported(d, p.completion, p.received, p.answer);
    assert d.job.transferred < request.Length();
    if outcome.completion.Some? {
      pieces, result, end := [p], outcome.completion.value, p.after;
      buffer := Received(d, p.received).job.readBuffer;
    } else {
      hide Transferred, Reported, NextTransfer, Received, Effect;
      var rest;
      rest, result, end, buffer := OperationCanComplete(t, request, origin, p.after);
      pieces := [p] + rest;
      assert pieces[1..] == rest;
    }
  }

  /** The next transfer done, and the one after it accepted. */
  lemma NextPiece(d: Driver, request: Request, origin: Media, media: Media) returns (p: Piece)
    requires Underway(d, request, origin, media)
    ensures DataJob(d) && ChunkFits(d.job) && IsForActive(d, p.completion)
    ensures Transferred(NextTransfer(d), p.completion.result, media, p.after, p.received)
    ensures PieceResult(d, request, origin, p.after, p.completion, p.received, p.answer)
    ensures var completion := Reported(d, p.completion, p.received, p.answer).1.completion;
      completion.Some? ==> completion.value.result == IoOk
  {
    TransferOfChunk(d);
    var c := TxCompletion(d.config.clientId, d.job.transactionId, d.job.token.correlationId, d.clientGeneration, 0, TxOk);
    var after, received := TransferDone(NextTransfer(d), media);
    p := Piece(c, after, received, Accepted(1));
    if request.Write? {
      WritePiece(d, request, origin, media, c, after, received, Accepted(1));
    } else {
      ReadPiece(d, request, origin, media, c, after, received, Accepted(1));
    }
    hide PieceResult, NextTransfer, ChunkLength, ConfigIsValid, Transferred, Spliced;
  }

  lemma TransferDone(r: BusRequest, media: Media) returns (after: Media, received: seq<uint8>)
    requires StaysInBlock(r) && |media| == SIZE_BYTES && NamedAddress(r) + Span(r) <= SIZE_BYTES
    requires r.rxLength == 0 || |r.tx| == 1
    ensures Transferred(r, TxOk, media, after, received)
  {
    var at := NamedAddress(r);
    if r.rxLength > 0 {
      after, received := media, media[at..at + r.rxLength];
    } else {
      after, received := Spliced(media, at, r.tx[1..]), [];
      FrontIsTorn(media, at, r.tx[1..]);
    }
  }

  // ---------- One completion for each accepted operation ----------

  datatype Call =
    | Begin(write: bool, address: uint16, buffer: seq<uint8>, token: Token, deadline: uint64, answer: SubmitResult)
    | BeginProbe(token: Token, deadline: uint64, answer: SubmitResult)
    | Report(completion: TxCompletion, received: seq<uint8>, answer: SubmitResult)
    | NewGeneration(generation: uint32)

  /** The driver, the tokens of the operations it accepted and those of the completions it reported. */
  datatype Ledger = Ledger(driver: Driver, accepted: seq<Token>, completed: seq<Token>)

  predicate DriverOk(d: Driver) {
    && ConfigIsValid(d.config) && JobOk(d.job) && (d.state == WaitingI2c ==> ChunkFits(d.job))
    && (d.state == WaitingI2c && d.job.operation == ProbeOperation ==>
          d.job.requested == 2 && d.job.transferred == d.job.probePage <= 1)
  }

  /** The call, whether it began an operation, and what else it did. */
  function Called(d: Driver, call: Call): (Driver, bool, Outcome)
    requires DriverOk(d)
  {
    match call
    case Begin(write, address, buffer, token, deadline, answer) =>
      if |buffer| >= 0x1_0000 then (d, false, NOTHING)
      else
        var (t, result, outcome) := BeginOperation(
          d, if write then WriteOperation else ReadOperation, address, buffer, |buffer|, token, deadline, answer);
        (t, result == PortAccepted, outcome)
    case BeginProbe(token, deadline, answer) =>
      var (t, result, outcome) := BeginOperation(d, ProbeOperation, 0, [], 2, token, deadline, answer);
      (t, result == PortAccepted, outcome)
    case Report(completion, received, answer) =>
      var (t, outcome) := OnI2cCompletion(Received(d, received), completion, answer);
      (t, false, outcome)
    case NewGeneration(generation) =>
      var (t, outcome) := CancelGeneration(d, generation);
      (t, false, outcome)
  }

  function TokenOf(call: Call): Token {
    if call.Begin? || call.BeginProbe? then call.token else NO_JOB.token
  }

  function Entered(l: Ledger, call: Call): Ledger
    requires DriverOk(l.driver)
  {
    var (t, began, outcome) := Called(l.driver, call);
    Ledger(t, if began then l.accepted + [TokenOf(call)] else l.accepted,
           if outcome.completion.Some? then l.completed + [outcome.completion.value.token] else l.completed)
  }

  /** Completions come in the order of the operations, one for each, and at most the last one is still due. */
  predicate Balanced(l: Ledger) {
    l.accepted == l.completed + (if l.driver.state == WaitingI2c then [l.driver.job.token] else [])
  }

  lemma CallKeeps(l: Ledger, call: Call)
    requires DriverOk(l.driver) && Balanced(l)
    ensures DriverOk(Entered(l, call).driver) && Balanced(Entered(l, call))
  {
    hide ConfigIsValid, NextTransfer, Spliced;
    match call
    case Begin(_, _, _, _, _, _) => BeginKeeps(l, call);
    case BeginProbe(_, _, _) => BeginKeeps(l, call);
    case Report(completion, received, answer) => ReportKeeps(l, completion, received, answer);
    case NewGeneration(_) =>
  }

  lemma BeginKeeps(l: Ledger, call: Call)
    requires DriverOk(l.driver) && Balanced(l) && (call.Begin? || call.BeginProbe?)
    ensures DriverOk(Entered(l, call).driver) && Balanced(Entered(l, call))
  {
    assert l.driver.config.slaveBase % 2 == 0 && l.driver.config.maxChunk > 0;
    hide ConfigIsValid, NextTransfer;
  }

  lemma ReportKeeps(l: Ledger, completion: TxCompletion, received: seq<uint8>, answer: SubmitResult)
    requires DriverOk(l.driver) && Balanced(l)
    ensures var m := Entered(l, Report(completion, received, answer)); DriverOk(m.driver) && Balanced(m)
  {
    assert l.driver.config.slaveBase % 2 == 0 && l.driver.config.maxChunk > 0;
    var d := Received(l.driver, received);
    assert DriverOk(d) && d == l.driver.(job := l.driver.job.(readBuffer := d.job.readBuffer));
    hide ConfigIsValid, NextTransfer, Received;
  }

  ghost predicate LedgerRun(l: Ledger, calls: seq<Call>, end: Ledger)
    decreases |calls|
  {
    if calls == [] then end == l
    else DriverOk(l.driver) && LedgerRun(Entered(l, calls[0]), calls[1..], end)
  }

  lemma {:induction false} LedgerRunKeeps(l: Ledger, calls: seq<Call>, end: Ledger)
    requires DriverOk(l.driver) && Balanced(l) && LedgerRun(l, calls, end)
    ensures DriverOk(end.driver) && Balanced(end)
    decreases |calls|
  {
    if calls != [] {
      CallKeeps(l, calls[0]);
      LedgerRunKeeps(Entered(l, calls[0]), calls[1..], end);
    }
  }

  /** Over every run of calls, reports and changes of generation from the start, however the bus answers. */
  lemma OneCompletionEach(c: Config, calls: seq<Call>, end: Ledger)
    requires ConfigIsValid(c) && LedgerRun(Ledger(InitialDriver(c), [], []), calls, end)
    ensures DriverOk(end.driver) && Balanced(end)
  {
    LedgerRunKeeps(Ledger(InitialDriver(c), [], []), calls, end);
  }
}
