/** i2c_bus_manager.c in its own form: the queue is a fixed array, searched, shifted and appended to in place. */
module I2cBusObject {
  import opened Bits
  import opened Sequences
  import opened StorageRecord
  import Spec = I2cBusManager
  import opened I2cBusManager

  datatype Counters = Counters(nextAdmission: nat, nextId: nat, generation: nat)

  /** One round of the sweep over the queue. */
  lemma SweepRound(b: Bus, client: uint32, i: nat)
    ensures i >= |b.pending| ==> CancelPending(b, client, i) == b && PendingCancelled(b, client, i) == 0
    ensures i < |b.pending| && b.pending[i].request.clientId != client ==>
      CancelPending(b, client, i) == CancelPending(b, client, i + 1)
      && PendingCancelled(b, client, i) == PendingCancelled(b, client, i + 1)
    ensures i < |b.pending| && b.pending[i].request.clientId == client ==>
      var n := Spec.Notify(b.(pending := Removed(b.pending, i)), b.pending[i], TxCancelled);
      CancelPending(b, client, i) == CancelPending(n, client, i)
      && PendingCancelled(b, client, i) == 1 + PendingCancelled(n, client, i)
  {
    hide Spec.Notify, Removed;
  }

  /** find_client. */
  method FindClientIn(clients: seq<Client>, id: uint32) returns (client: Option<Client>)
    ensures client == FindClient(clients, id)
  {
    var i := 0;
    while i < |clients|
      invariant 0 <= i <= |clients|
      invariant FindClient(clients, id) == FindClient(clients[i..], id)
    {
      if clients[i].id == id {
        return Some(clients[i]);
      }
      i := i + 1;
    }
    return None;
  }

  class I2cBus {
    var portBound: bool
    var clients: seq<Client>
    var busy: bool
    var active: Transaction
    const pending: array<Transaction>
    var pendingCount: nat
    var counters: Counters
    var world: Surroundings

    ghost predicate Valid()
      reads this
    {
      pending.Length == PENDING_CAPACITY && pendingCount <= PENDING_CAPACITY
    }

    ghost function View(): Bus
      reads this, pending
      requires Valid()
    {
      Bus(portBound, clients, if busy then Some(active) else None, pending[..pendingCount],
          counters.nextAdmission, counters.nextId, counters.generation, world)
    }

    /** best_pending_index. */
    method BestPendingIndex() returns (best: nat)
      requires Valid() && pendingCount > 0
      ensures best < pendingCount && best == Best(View().pending)
    {
      best := 0;
      var i := 1;
      while i < pendingCount
        invariant 1 <= i <= pendingCount && best < pendingCount
        invariant best == BestAmong(pending[..pendingCount], i)
      {
        if pending[i].request.priority < pending[best].request.priority
           || (pending[i].request.priority == pending[best].request.priority
               && pending[i].admission < pending[best].admission) {
          best := i;
        }
        i := i + 1;
      }
    }

    /** remove_pending: the entries behind move up by one. */
    method RemovePending(index: nat)
      requires Valid() && index < pendingCount
      modifies this`pendingCount, pending
      ensures Valid() && View() == old(View()).(pending := Removed(old(View()).pending, index))
    {
      hide Removed;
      CloseGap(pending, index, pendingCount);
      pendingCount := pendingCount - 1;
    }

    /** start_transaction. */
    method StartTransaction(t: Transaction) returns (started: bool)
      requires Valid() && !busy
      modifies this`busy, this`active, this`world
      ensures View() == Start(old(View()), t) && started == View().active.Some?
    {
      var client := FindClientIn(clients, t.request.clientId);
      if !portBound || client.None? || client.value.generation != t.request.clientGeneration
         || !AcceptsAddress(client.value, t.request.slaveAddress) {
        return false;
      }
      active := t.(busGeneration := counters.generation);
      busy := true;
      var answers := world.portAnswers;
      world := world.(portAnswers := if answers == [] then [] else answers[1..]);
      if answers == [] || !answers[0] {
        busy := false;
        return false;
      }
      return true;
    }

    /** i2c_bus_submit. */
    method Submit(r: BusRequest) returns (result: SubmitResult)
      requires Valid()
      modifies this, pending
      ensures Valid() && (View(), result) == Spec.Submit(old(View()), r)
    {
      if !WellFormed(r) {
        return InvalidParam;
      }
      if !portBound {
        return NotReady;
      }
      var client := FindClientIn(clients, r.clientId);
      if client.None? {
        return UnknownClient;
      }
      if r.clientGeneration != client.value.generation {
        return InvalidParam;
      }
      if !AcceptsAddress(client.value, r.slaveAddress) {
        return AddressRejected;
      }
      var t := Transaction(r, counters.nextId, counters.generation, counters.nextAdmission);
      counters := counters.(nextId := counters.nextId + 1, nextAdmission := counters.nextAdmission + 1);
      if !busy {
        var started := StartTransaction(t);
        if !started {
          return PortError;
        }
      } else {
        if pendingCount >= PENDING_CAPACITY {
          return NoCapacity;
        }
        pending[pendingCount] := t;
        pendingCount := pendingCount + 1;
        assert pending[..pendingCount] == old(pending[..pendingCount]) + [t];
      }
      world := world.(accepted := world.accepted + [t.id]);
      return Accepted(t.id);
    }

    /** notify: the callback submits its follow-ups one after the other. */
    method Notify(t: Transaction, result: TransactionResult)
      requires Valid()
      modifies this, pending
      ensures Valid() && View() == Spec.Notify(old(View()), t, result)
    {
      var client := FindClientIn(clients, t.request.clientId);
      if client.None? {
        return;
      }
      world := world.(notified := world.notified + [CompletionOf(t, result)]);
      if world.reactions == [] {
        return;
      }
      var requests := world.reactions[0];
      world := world.(reactions := world.reactions[1..]);
      ghost var told := View();
      var i := 0;
      while i < |requests|
        invariant Valid() && 0 <= i <= |requests|
        invariant SubmitAll(View(), requests[i..]) == SubmitAll(told, requests)
      {
        hide Spec.Submit;
        assert requests[i..][1..] == requests[i + 1..];
        var _ := Submit(requests[i]);
        i := i + 1;
      }
    }

    /** start_next. */
    method StartNext()
      requires Valid()
      modifies this, pending
      ensures Valid() && View() == Spec.StartNext(old(View()))
    {
      hide Best, Removed, Start, Spec.Notify;
      while !busy && pendingCount > 0
        invariant Valid() && Spec.StartNext(View()) == Spec.StartNext(old(View()))
        decreases !busy, pendingCount
      {
        var index := BestPendingIndex();
        var next := pending[index];
        RemovePending(index);
        var started := StartTransaction(next);
        if started {
          return;
        }
        Notify(next, TxFailed);
      }
    }

    /** The end of the active transfer: reported, and the next one started. */
    method Finish(t: Transaction, result: TransactionResult)
      requires Valid()
      modifies this, pending
      ensures Valid() && View() == Spec.StartNext(Spec.Notify(old(View()), t, result))
    {
      hide Spec.Notify, Spec.StartNext;
      Notify(t, result);
      StartNext();
    }

    /** i2c_bus_complete. */
    method Complete(c: TxCompletion) returns (taken: bool)
      requires Valid()
      modifies this, pending
      ensures Valid() && (View(), taken) == Spec.Complete(old(View()), c)
    {
      hide Spec.Notify, Spec.StartNext;
      if !busy || c.busGeneration != counters.generation || c.id != active.id
         || c.correlationId != active.request.correlationId || c.clientGeneration != active.request.clientGeneration {
        return false;
      }
      busy := false;
      Finish(active, c.result);
      return true;
    }

    /** The port is told to drop the active transfer, and the generation ends. */
    method Abort()
      requires Valid() && busy
      modifies this
      ensures Valid() && View() == Aborted(old(View())) && active == old(active)
    {
      world := world.(aborted := world.aborted + [active]);
      busy := false;
      counters := counters.(generation := counters.generation + 1);
    }

    /** i2c_bus_tick. */
    method Tick(now: uint64) returns (expired: bool)
      requires Valid()
      modifies this, pending
      ensures Valid() && (View(), expired) == Spec.Tick(old(View()), now)
    {
      hide Spec.Notify, Spec.StartNext, Aborted;
      if !busy || now < active.request.deadline {
        return false;
      }
      Abort();
      Finish(active, TxTimeout);
      return true;
    }

    /** i2c_bus_cancel_client. */
    method CancelClient(client: uint32) returns (cancelled: nat)
      requires Valid()
      modifies this, pending
      ensures Valid() && View() == Spec.CancelClient(old(View()), client)
      ensures cancelled == CancelCount(old(View()), client)
    {
      hide Spec.Notify, Spec.StartNext, Aborted, Removed, CancelPending, PendingCancelled;
      cancelled := 0;
      ghost var done := 0;
      var i := 0;
      while i < pendingCount
        invariant Valid() && CancelPending(View(), client, i) == CancelPending(old(View()), client, 0)
        invariant done + PendingCancelled(View(), client, i) == PendingCancelled(old(View()), client, 0)
        invariant cancelled == done % 0x100
        decreases |world.reactions|, pendingCount - i
      {
        SweepRound(View(), client, i);
        if pending[i].request.clientId == client {
          var t := pending[i];
          RemovePending(i);
          Notify(t, TxCancelled);
          cancelled, done := (cancelled + 1) % 0x100, done + 1;
        } else {
          i := i + 1;
        }
      }
      SweepRound(View(), client, i);
      assert View() == CancelPending(old(View()), client, 0) && done == PendingCancelled(old(View()), client, 0);
      if busy && active.request.clientId == client {
        Abort();
        cancelled := (cancelled + 1) % 0x100;
        Finish(active, TxCancelled);
      }
    }

    /** i2c_bus_recover. */
    method Recover()
      requires Valid()
      modifies this, pending
      ensures Valid() && View() == Spec.Recover(old(View()))
    {
      hide Spec.Notify, Spec.StartNext, Aborted;
      if busy {
        Abort();
        Finish(active, TxCancelled);
      } else {
        counters := counters.(generation := counters.generation + 1);
        StartNext();
      }
    }

    /** i2c_bus_register_client. */
    method Register(c: Client) returns (registered: bool)
      requires Valid()
      modifies this
      ensures Valid() && (View(), registered) == Spec.Register(old(View()), c)
    {
      var known := FindClientIn(clients, c.id);
      if c.id == 0 || c.generation == 0 || c.addressMask == 0 || |clients| >= MAX_CLIENTS || known.Some? {
        return false;
      }
      clients := clients + [c];
      return true;
    }
  }
}
