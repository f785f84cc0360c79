/** fram_driver.c in its own form: one driver, updated in place by calls and by the bus's reports. */
module FramObject {
  import opened Bits
  import opened StorageRecord
  import opened StoragePort
  import opened I2cBusManager
  import Spec = FramDriver
  import opened FramDriver

  class Fram {
    const config: Config
    var state: DriverState
    var clientGeneration: uint32
    var job: Job

    ghost function View(): Driver
      reads this
    {
      Driver(config, state, clientGeneration, job)
    }

    /** fram_init, once the bus has taken the client. */
    constructor (c: Config)
      ensures View() == InitialDriver(c)
    {
      config, state, clientGeneration, job := c, FramIdle, 1, NO_JOB;
    }

    method EmitCompletion(result: IoResult) returns (completion: IoCompletion)
      modifies this
      ensures (View(), completion) == Emit(old(View()), result)
    {
      completion := IoCompletion(job.token, result, job.requested, job.transferred);
      state, job := FramIdle, NO_JOB;
    }

    /** submit_current_chunk: the transfer it hands to the bus, and what becomes of the driver on the bus's answer. */
    method SubmitChunk(answer: SubmitResult) returns (result: PortAnswer, transfer: BusRequest)
      requires JobOk(job) && config.slaveBase % 2 == 0
      modifies this
      ensures (View(), result) == SubmitCurrentChunk(old(View()), answer) && transfer == NextTransfer(old(View()))
    {
      var address := job.current;
      var rxLength := 0;
      var payload := [];
      if job.operation == ProbeOperation {
        address := if job.probePage == 0 then 0 else PAGE_BYTES;
        job := job.(chunk := 1);
        rxLength := 1;
      } else {
        job := job.(chunk := ChunkLength(config, job));
        if job.operation == ReadOperation {
          rxLength := job.chunk;
        } else if job.operation == WriteOperation {
          payload := job.writeBuffer[job.transferred..job.transferred + job.chunk];
        }
      }
      transfer := BusRequest(config.clientId, job.token.correlationId, clientGeneration, SlaveAddress(config.slaveBase, address),
                             [address % PAGE_BYTES] + payload, rxLength, job.deadline, config.priority);
      result := MapSubmitResult(answer);
      if answer.Accepted? {
        job := job.(transactionId := answer.id);
        state := WaitingI2c;
      }
    }

    /** begin_operation. */
    method Begin(operation: Operation, address: uint16, buffer: seq<uint8>, length: uint16, token: Token, deadline: uint64,
                 answer: SubmitResult) returns (result: PortAnswer, outcome: Outcome)
      requires config.slaveBase % 2 == 0
      requires operation == ReadOperation || operation == WriteOperation ==> |buffer| == length
      modifies this
      ensures (View(), result, outcome)
           == BeginOperation(old(View()), operation, address, buffer, length, token, deadline, answer)
    {
      hide NextTransfer, RangeIsValid;
      outcome := NOTHING;
      if state == Uninitialized {
        return PortNotReady, outcome;
      }
      if state != FramIdle {
        return PortBusy, outcome;
      }
      if !TokenIsValid(token) || deadline == 0 {
        return PortInvalidParam, outcome;
      }
      if !RangeIsValid(address, length) {
        return PortOutOfRange, outcome;
      }
      job := Job(operation, token, address, address, length, 0, 0, deadline, 0,
                 if operation == ReadOperation then buffer else [], if operation == WriteOperation then buffer else [], 0);
      if length == 0 {
        var completion := EmitCompletion(IoOk);
        return PortAccepted, Outcome(None, Some(completion));
      }
      var transfer;
      result, transfer := SubmitChunk(answer);
      if result != PortAccepted {
        state, job := FramIdle, NO_JOB;
      }
      outcome := Outcome(Some(transfer), None);
    }

    /** fram_on_i2c_completion. */
    method OnCompletion(c: TxCompletion, answer: SubmitResult) returns (outcome: Outcome)
      requires JobOk(job) && config.slaveBase % 2 == 0 && (state == WaitingI2c ==> ChunkFits(job))
      modifies this
      ensures (View(), outcome) == OnI2cCompletion(old(View()), c, answer)
    {
      hide NextTransfer;
      if state != WaitingI2c || c.clientId != config.clientId || c.id != job.transactionId
         || c.correlationId != job.token.correlationId || c.clientGeneration != clientGeneration {
        return NOTHING;
      }
      var result := MapResult(c.result);
      if result == IoOk {
        if job.operation == ProbeOperation {
          job := job.(transferred := job.transferred + 1);
          if job.probePage == 0 {
            job := job.(probePage := 1);
            outcome := SubmitNext(answer);
            return;
          }
        } else {
          job := job.(transferred := job.transferred + job.chunk, current := job.start + job.transferred + job.chunk);
          if job.transferred < job.requested {
            outcome := SubmitNext(answer);
            return;
          }
        }
      }
      var completion := EmitCompletion(result);
      return Outcome(None, Some(completion));
    }

    method SubmitNext(answer: SubmitResult) returns (outcome: Outcome)
      requires JobOk(job) && config.slaveBase % 2 == 0
      modifies this
      ensures (View(), outcome) == Continue(old(View()), answer)
    {
      hide NextTransfer;
      var submitted, transfer := SubmitChunk(answer);
      if submitted == PortAccepted {
        return Outcome(Some(transfer), None);
      }
      var completion := EmitCompletion(IoBusError);
      return Outcome(Some(transfer), Some(completion));
    }

    /** fram_cancel_generation. */
    method Cancel(generation: uint32) returns (outcome: Outcome)
      modifies this
      ensures (View(), outcome) == CancelGeneration(old(View()), generation)
    {
      outcome := NOTHING;
      if generation == 0 || state == Uninitialized {
        return;
      }
      if state == WaitingI2c {
        var completion := EmitCompletion(IoCancelled);
        outcome := Outcome(None, Some(completion));
      }
      clientGeneration := generation;
    }
  }
}
