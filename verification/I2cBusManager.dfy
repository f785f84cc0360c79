/** The owner of the physical I2C bus, i2c_bus_manager.c: one transfer at a time, the others wait by priority and
    admission. Counters do not wrap here, so a transaction identifier names one submission for ever. */
module I2cBusManager {
  import opened Bits
  import opened Sequences
  import opened StorageRecord

  const MAX_CLIENTS: nat := 4
  const PENDING_CAPACITY: nat := 8

  datatype TransactionResult = TxOk | TxBusy | TxTimeout | TxFailed | TxCancelled | TxStale

  datatype SubmitResult =
    | Accepted(id: nat) | InvalidParam | NotReady | UnknownClient | AddressRejected | NoCapacity | PortError

  datatype Client = Client(id: uint32, generation: uint32, addressBase: uint8, addressMask: uint8)

  datatype BusRequest = BusRequest(
    clientId: uint32, correlationId: uint32, clientGeneration: uint32, slaveAddress: uint8,
    tx: seq<uint8>, rxLength: nat, deadline: uint64, priority: uint8)

  datatype Transaction = Transaction(request: BusRequest, id: nat, busGeneration: nat, admission: nat)

  datatype TxCompletion = TxCompletion(
    clientId: uint32, id: nat, correlationId: uint32, clientGeneration: uint32, busGeneration: nat,
    result: TransactionResult)

  /** The rest of the world. To come: what the port will answer to each transfer, and what each completion callback
      will submit. So far: the identifiers handed out, the completions delivered, the transfers ended from our side. */
  datatype Surroundings = Surroundings(
    portAnswers: seq<bool>, reactions: seq<seq<BusRequest>>,
    accepted: seq<nat>, notified: seq<TxCompletion>, aborted: seq<Transaction>)

  datatype Bus = Bus(
    portBound: bool, clients: seq<Client>, active: Option<Transaction>, pending: seq<Transaction>,
    nextAdmission: nat, nextId: nat, generation: nat, world: Surroundings)

  function InitialBus(portBound: bool, world: Surroundings): Bus {
    Bus(portBound, [], None, [], 1, 1, 1, world)
  }

  // ---------- Clients ----------

  function FindClient(clients: seq<Client>, id: uint32): Option<Client> {
    if clients == [] then None
    else if clients[0].id == id then Some(clients[0])
    else FindClient(clients[1..], id)
  }

  predicate AcceptsAddress(c: Client, address: uint8) {
    And(address, c.addressMask) == And(c.addressBase, c.addressMask)
  }

  function Register(b: Bus, c: Client): (Bus, bool) {
    if c.id == 0 || c.generation == 0 || c.addressMask == 0 || |b.clients| >= MAX_CLIENTS
       || FindClient(b.clients, c.id).Some? then (b, false)
    else (b.(clients := b.clients + [c]), true)
  }

  function WithGeneration(clients: seq<Client>, id: uint32, generation: uint32): seq<Client> {
    if clients == [] then []
    else if clients[0].id == id then [clients[0].(generation := generation)] + clients[1..]
    else [clients[0]] + WithGeneration(clients[1..], id, generation)
  }

  function SetClientGeneration(b: Bus, id: uint32, generation: uint32): (Bus, bool) {
    if FindClient(b.clients, id).None? || generation == 0 then (b, false)
    else (b.(clients := WithGeneration(b.clients, id, generation)), true)
  }

  // ---------- Starting and submitting ----------

  predicate Startable(b: Bus, r: BusRequest) {
    var client := FindClient(b.clients, r.clientId);
    b.portBound && client.Some? && client.value.generation == r.clientGeneration
    && AcceptsAddress(client.value, r.slaveAddress)
  }

  /** start_transaction. The port is asked only when everything else fits. */
  function Start(b: Bus, t: Transaction): (r: Bus)
    requires b.active.None?
    ensures r.active.None? || r.active == Some(t.(busGeneration := b.generation))
    ensures r == b.(active := r.active, world := b.world.(portAnswers := r.world.portAnswers))
  {
    if !Startable(b, t.request) then b
    else
      var answers := b.world.portAnswers;
      var asked := b.(world := b.world.(portAnswers := if answers == [] then [] else answers[1..]));
      if answers == [] || !answers[0] then asked
      else asked.(active := Some(t.(busGeneration := b.generation)))
  }

  predicate WellFormed(r: BusRequest) {
    r.correlationId != 0 && r.clientGeneration != 0 && r.deadline != 0 && (r.tx != [] || r.rxLength != 0)
  }

  function Refusal(b: Bus, r: BusRequest): Option<SubmitResult> {
    var client := FindClient(b.clients, r.clientId);
    if !WellFormed(r) then Some(InvalidParam)
    else if !b.portBound then Some(NotReady)
    else if client.None? then Some(UnknownClient)
    else if r.clientGeneration != client.value.generation then Some(InvalidParam)
    else if !AcceptsAddress(client.value, r.slaveAddress) then Some(AddressRejected)
    else None
  }

  /** i2c_bus_submit. */
  function Submit(b: Bus, r: BusRequest): (Bus, SubmitResult) {
    var refusal := Refusal(b, r);
    if refusal.Some? then (b, refusal.value)
    else
      var t := Transaction(r, b.nextId, b.generation, b.nextAdmission);
      var c := b.(nextId := b.nextId + 1, nextAdmission := b.nextAdmission + 1);
      if b.active.None? then
        var started := Start(c, t);
        if started.active.None? then (started, PortError) else (Admitted(started, t.id), Accepted(t.id))
      else if |b.pending| >= PENDING_CAPACITY then (c, NoCapacity)
      else (Admitted(c.(pending := b.pending + [t]), t.id), Accepted(t.id))
  }

  function Admitted(b: Bus, id: nat): Bus {
    b.(world := b.world.(accepted := b.world.accepted + [id]))
  }

  /** What a completion callback does: it submits follow-up transfers. */
  function SubmitAll(b: Bus, rs: seq<BusRequest>): (r: Bus)
    ensures r.world.reactions == b.world.reactions
    ensures r.active.None? ==> b.active.None? && r.pending == b.pending
    decreases |rs|
  {
    if rs == [] then b else SubmitAll(Submit(b, rs[0]).0, rs[1..])
  }

  function CompletionOf(t: Transaction, result: TransactionResult): TxCompletion {
    TxCompletion(t.request.clientId, t.id, t.request.correlationId, t.request.clientGeneration, t.busGeneration, result)
  }

  /** notify: the client hears of the end of its transfer, and reacts. */
  function Notify(b: Bus, t: Transaction, result: TransactionResult): (r: Bus)
    ensures r.active.None? ==> b.active.None? && r.pending == b.pending
    ensures |r.world.reactions| < |b.world.reactions|
         || (r.world.reactions == b.world.reactions && r.pending == b.pending && r.active == b.active)
  {
    if FindClient(b.clients, t.request.clientId).None? then b
    else
      var told := b.(world := b.world.(notified := b.world.notified + [CompletionOf(t, result)]));
      if b.world.reactions == [] then told
      else SubmitAll(told.(world := told.world.(reactions := b.world.reactions[1..])), b.world.reactions[0])
  }

  // ---------- Arbitration ----------

  predicate Before(p: Transaction, q: Transaction) {
    p.request.priority < q.request.priority || (p.request.priority == q.request.priority && p.admission < q.admission)
  }

  /** best_pending_index among the first n. */
  function BestAmong(pending: seq<Transaction>, n: nat): (best: nat)
    requires 0 < n <= |pending|
    ensures best < n
  {
    if n == 1 then 0
    else
      var best := BestAmong(pending, n - 1);
      if Before(pending[n - 1], pending[best]) then n - 1 else best
  }

  function Best(pending: seq<Transaction>): (best: nat)
    requires pending != []
    ensures best < |pending|
  {
    BestAmong(pending, |pending|)
  }

  /** start_next: waiting transfers are tried in order until one starts; one that cannot is reported failed. */
  function StartNext(b: Bus): Bus
    decreases |b.pending|
  {
    if b.active.Some? || b.pending == [] then b
    else
      var best := Best(b.pending);
      var t := b.pending[best];
      var started := Start(b.(pending := Removed(b.pending, best)), t);
      if started.active.Some? then started
      else
        var told := Notify(started, t, TxFailed);
        if told.active.Some? then told else StartNext(told)
  }

  // ---------- Ending transfers ----------

  predicate Current(b: Bus, c: TxCompletion) {
    b.active.Some? && c.busGeneration == b.generation && c.id == b.active.value.id
    && c.correlationId == b.active.value.request.correlationId
    && c.clientGeneration == b.active.value.request.clientGeneration
  }

  /** i2c_bus_complete: only the tuple of the active transfer is taken. */
  function Complete(b: Bus, c: TxCompletion): (Bus, bool) {
    if !Current(b, c) then (b, false)
    else (StartNext(Notify(b.(active := None), b.active.value, c.result)), true)
  }

  /** Ending the active transfer from our side: whatever the port still says about it is of a past generation. */
  function Aborted(b: Bus): Bus
    requires b.active.Some?
  {
    b.(active := None, generation := b.generation + 1, world := b.world.(aborted := b.world.aborted + [b.active.value]))
  }

  /** i2c_bus_tick. */
  function Tick(b: Bus, now: uint64): (Bus, bool) {
    if b.active.None? || now < b.active.value.request.deadline then (b, false)
    else (StartNext(Notify(Aborted(b), b.active.value, TxTimeout)), true)
  }

  /** i2c_bus_cancel_client, from position i of the queue on. */
  function CancelPending(b: Bus, client: uint32, i: nat): Bus
    decreases |b.world.reactions|, |b.pending| - i
  {
    if i >= |b.pending| then b
    else if b.pending[i].request.clientId != client then CancelPending(b, client, i + 1)
    else CancelPending(Notify(b.(pending := Removed(b.pending, i)), b.pending[i], TxCancelled), client, i)
  }

  /** How many waiting transfers that cancels. */
  function PendingCancelled(b: Bus, client: uint32, i: nat): nat
    decreases |b.world.reactions|, |b.pending| - i
  {
    if i >= |b.pending| then 0
    else if b.pending[i].request.clientId != client then PendingCancelled(b, client, i + 1)
    else 1 + PendingCancelled(Notify(b.(pending := Removed(b.pending, i)), b.pending[i], TxCancelled), client, i)
  }

  /** What i2c_bus_cancel_client returns, in eight bits. */
  function CancelCount(b: Bus, client: uint32): nat {
    var c := CancelPending(b, client, 0);
    (PendingCancelled(b, client, 0) + if c.active.Some? && c.active.value.request.clientId == client then 1 else 0) % 0x100
  }

  function CancelClient(b: Bus, client: uint32): Bus {
    var c := CancelPending(b, client, 0);
    if c.active.None? || c.active.value.request.clientId != client then c
    else StartNext(Notify(Aborted(c), c.active.value, TxCancelled))
  }

  /** i2c_bus_recover. */
  function Recover(b: Bus): Bus {
    if b.active.None? then StartNext(b.(generation := b.generation + 1))
    else StartNext(Notify(Aborted(b), b.active.value, TxCancelled))
  }
}
