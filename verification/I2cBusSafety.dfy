/** What holds of the bus in every run: every accepted transfer is in exactly one place, ends with exactly one
    completion, and nothing late is mistaken for it. */
module I2cBusSafety {
  import opened Bits
  import opened Sequences
  import opened StorageRecord
  import opened I2cBusManager

  function Ids(ts: seq<Transaction>): (ids: seq<nat>)
    ensures |ids| == |ts| && forall i :: 0 <= i < |ts| ==> ids[i] == ts[i].id
  {
    seq(|ts|, i requires 0 <= i < |ts| => ts[i].id)
  }

  function NotifiedIds(cs: seq<TxCompletion>): (ids: seq<nat>)
    ensures |ids| == |cs| && forall i :: 0 <= i < |cs| ==> ids[i] == cs[i].id
  {
    seq(|cs|, i requires 0 <= i < |cs| => cs[i].id)
  }

  function ActiveIds(b: Bus): multiset<nat> {
    if b.active.Some? then multiset{b.active.value.id} else multiset{}
  }

  predicate Ascending(s: seq<nat>, bound: nat) {
    (forall i, j :: 0 <= i < j < |s| ==> s[i] < s[j]) && (forall i :: 0 <= i < |s| ==> s[i] < bound)
  }

  predicate Registered(b: Bus, t: Transaction) {
    FindClient(b.clients, t.request.clientId).Some?
  }

  /** Waiting transfers in admission order, all of known clients. */
  predicate QueueOk(b: Bus) {
    && |b.pending| <= PENDING_CAPACITY
    && (forall i :: 0 <= i < |b.pending| ==> Registered(b, b.pending[i]) && b.pending[i].admission < b.nextAdmission)
    && (forall i, j :: 0 <= i < j < |b.pending| ==> b.pending[i].admission < b.pending[j].admission)
    && (b.active.Some? ==> Registered(b, b.active.value) && b.active.value.busGeneration == b.generation)
  }

  /** Every identifier handed out is that of a completion, of the active transfer, of a waiting one, or among extra. */
  predicate Partition(b: Bus, extra: multiset<nat>) {
    multiset(b.world.accepted) == multiset(NotifiedIds(b.world.notified)) + multiset(Ids(b.pending)) + ActiveIds(b) + extra
  }

  predicate PastGenerations(b: Bus) {
    forall i :: 0 <= i < |b.world.aborted| ==> b.world.aborted[i].busGeneration < b.generation
  }

  predicate CoreInv(b: Bus, extra: multiset<nat>) {
    QueueOk(b) && Ascending(b.world.accepted, b.nextId) && Partition(b, extra) && PastGenerations(b)
  }

  /** The invariant between calls. */
  predicate Inv(b: Bus) {
    CoreInv(b, multiset{}) && (b.pending != [] ==> b.active.Some?)
  }

  // ---------- Bags of identifiers ----------

  lemma IdsAppend(ts: seq<Transaction>, t: Transaction)
    ensures multiset(Ids(ts + [t])) == multiset(Ids(ts)) + multiset{t.id}
  {
    assert Ids(ts + [t]) == Ids(ts) + [t.id];
  }

  lemma IdsRemoved(ts: seq<Transaction>, i: nat)
    requires i < |ts|
    ensures multiset(Ids(ts)) == multiset(Ids(Removed(ts, i))) + multiset{ts[i].id}
  {
    assert Ids(ts) == Ids(ts[..i]) + [ts[i].id] + Ids(ts[i + 1..]);
    assert Ids(Removed(ts, i)) == Ids(ts[..i]) + Ids(ts[i + 1..]);
  }

  lemma NotifiedAppend(cs: seq<TxCompletion>, c: TxCompletion)
    ensures multiset(NotifiedIds(cs + [c])) == multiset(NotifiedIds(cs)) + multiset{c.id}
  {
    assert NotifiedIds(cs + [c]) == NotifiedIds(cs) + [c.id];
  }

  // ---------- Every step keeps it ----------

  /** Admitting a transfer: its identifier is new, and it is active or waits last. */
  lemma AdmitKeeps(b: Bus, t: Transaction, extra: multiset<nat>)
    requires CoreInv(b, extra) && Registered(b, t) && t.id == b.nextId && t.admission == b.nextAdmission
    requires b.active.None? ==> t.busGeneration == b.generation
    requires b.active.Some? ==> |b.pending| < PENDING_CAPACITY
    ensures CoreInv(WithAdmitted(b, t), extra)
  {
    AdmitToPartition(b, t, extra);
    AdmitToQueue(b, t);
    AscendingAppend(b.world.accepted, b.nextId);
    hide Partition, QueueOk, FindClient, Ids, Ascending;
  }

  lemma AscendingAppend(s: seq<nat>, bound: nat)
    requires Ascending(s, bound)
    ensures Ascending(s + [bound], bound + 1)
  {
  }

  function WithAdmitted(b: Bus, t: Transaction): Bus {
    var c := b.(nextId := b.nextId + 1, nextAdmission := b.nextAdmission + 1);
    Admitted(if b.active.None? then c.(active := Some(t)) else c.(pending := b.pending + [t]), t.id)
  }

  lemma AdmitToQueue(b: Bus, t: Transaction)
    requires QueueOk(b) && Registered(b, t) && t.admission == b.nextAdmission
    requires b.active.None? ==> t.busGeneration == b.generation
    requires b.active.Some? ==> |b.pending| < PENDING_CAPACITY
    ensures QueueOk(WithAdmitted(b, t))
  {
    hide FindClient;
  }

  lemma AdmitToPartition(b: Bus, t: Transaction, extra: multiset<nat>)
    requires Partition(b, extra)
    ensures Partition(WithAdmitted(b, t), extra)
  {
    IdsAppend(b.pending, t);
    assert multiset(b.world.accepted + [t.id]) == multiset(b.world.accepted) + multiset{t.id};
    hide Ids, NotifiedIds;
  }

  /** A submission that is not accepted uses up counters and an answer of the port at most. */
  lemma UnadmittedKeeps(b: Bus, c: Bus, extra: multiset<nat>)
    requires CoreInv(b, extra) && b.nextId <= c.nextId && b.nextAdmission <= c.nextAdmission
    requires c == b.(nextId := c.nextId, nextAdmission := c.nextAdmission, world := b.world.(portAnswers := c.world.portAnswers))
    ensures CoreInv(c, extra)
  {
  }

  lemma SubmitKeeps(b: Bus, r: BusRequest, extra: multiset<nat>)
    requires CoreInv(b, extra)
    ensures CoreInv(Submit(b, r).0, extra)
  {
    var t := Transaction(r, b.nextId, b.generation, b.nextAdmission);
    hide CoreInv, AcceptsAddress, FindClient;
    var (c, result) := Submit(b, r);
    if result.Accepted? {
      var u := b.(world := b.world.(portAnswers := c.world.portAnswers));
      UnadmittedKeeps(b, u, extra);
      QueueRoom(b, extra);
      AdmitKeeps(u, t, extra);
    } else {
      UnadmittedKeeps(b, c, extra);
    }
  }

  lemma QueueRoom(b: Bus, extra: multiset<nat>)
    requires CoreInv(b, extra)
    ensures |b.pending| <= PENDING_CAPACITY
  {
  }

  lemma {:induction false} SubmitAllKeeps(b: Bus, rs: seq<BusRequest>, extra: multiset<nat>)
    requires CoreInv(b, extra)
    ensures CoreInv(SubmitAll(b, rs), extra)
    decreases |rs|
  {
    if rs != [] {
      SubmitKeeps(b, rs[0], extra);
      SubmitAllKeeps(Submit(b, rs[0]).0, rs[1..], extra);
    }
  }

  /** Reporting a transfer that is out of the queue puts its identifier where it belongs. */
  lemma NotifyKeeps(b: Bus, t: Transaction, result: TransactionResult, extra: multiset<nat>)
    requires CoreInv(b, extra + multiset{t.id}) && Registered(b, t)
    ensures CoreInv(Notify(b, t, result), extra)
  {
    var told := b.(world := b.world.(notified := b.world.notified + [CompletionOf(t, result)]));
    assert CoreInv(told, extra) by {
      NotifiedAppend(b.world.notified, CompletionOf(t, result));
      hide Ids, NotifiedIds, FindClient;
    }
    if b.world.reactions != [] {
      var next := told.(world := told.world.(reactions := b.world.reactions[1..]));
      assert CoreInv(next, extra);
      hide CoreInv, SubmitAll;
      SubmitAllKeeps(next, b.world.reactions[0], extra);
    }
  }

  lemma RemoveKeeps(b: Bus, i: nat, extra: multiset<nat>)
    requires CoreInv(b, extra) && i < |b.pending|
    ensures CoreInv(b.(pending := Removed(b.pending, i)), extra + multiset{b.pending[i].id}) && Registered(b, b.pending[i])
  {
    RemoveFromPartition(b, i, extra);
    RemoveFromQueue(b, i);
    hide Partition, QueueOk;
  }

  lemma RemoveFromPartition(b: Bus, i: nat, extra: multiset<nat>)
    requires i < |b.pending| && Partition(b, extra)
    ensures Partition(b.(pending := Removed(b.pending, i)), extra + multiset{b.pending[i].id})
  {
    IdsRemoved(b.pending, i);
    hide Ids, NotifiedIds;
  }

  lemma RemoveFromQueue(b: Bus, i: nat)
    requires i < |b.pending| && QueueOk(b)
    ensures QueueOk(b.(pending := Removed(b.pending, i))) && Registered(b, b.pending[i])
  {
    var rest := Removed(b.pending, i);
    assert forall k :: 0 <= k < |rest| ==> rest[k] == b.pending[if k < i then k else k + 1];
    hide Removed, FindClient;
  }

  lemma StartKeeps(b: Bus, t: Transaction, extra: multiset<nat>)
    requires CoreInv(b, extra + multiset{t.id}) && b.active.None? && Registered(b, t)
    ensures var s := Start(b, t);
      CoreInv(s, if s.active.Some? then extra else extra + multiset{t.id}) && Registered(s, t)
  {
  }

  lemma {:induction false} StartNextKeeps(b: Bus, extra: multiset<nat>)
    requires CoreInv(b, extra)
    ensures CoreInv(StartNext(b), extra)
    ensures StartNext(b).active.Some? || StartNext(b).pending == []
    decreases |b.pending|
  {
    hide CoreInv, Start, Notify;
    if b.active.None? && b.pending != [] {
      var best := Best(b.pending);
      var t := b.pending[best];
      var without := b.(pending := Removed(b.pending, best));
      RemoveKeeps(b, best, extra);
      StartKeeps(without, t, extra);
      var started := Start(without, t);
      if started.active.None? {
        NotifyKeeps(started, t, TxFailed, extra);
        var told := Notify(started, t, TxFailed);
        if told.active.None? {
          StartNextKeeps(told, extra);
        }
      }
    }
  }

  lemma {:induction false} CancelPendingKeeps(b: Bus, client: uint32, i: nat)
    requires CoreInv(b, multiset{})
    ensures CoreInv(CancelPending(b, client, i), multiset{})
    decreases |b.world.reactions|, |b.pending| - i
  {
    hide CoreInv, Notify;
    if i < |b.pending| {
      if b.pending[i].request.clientId != client {
        CancelPendingKeeps(b, client, i + 1);
      } else {
        RemoveKeeps(b, i, multiset{});
        var without := b.(pending := Removed(b.pending, i));
        NotifyKeeps(without, b.pending[i], TxCancelled, multiset{});
        CancelPendingKeeps(Notify(without, b.pending[i], TxCancelled), client, i);
      }
    }
  }

  /** Taking the active transfer out, with or without the end of a generation. */
  lemma EndKeeps(b: Bus)
    requires CoreInv(b, multiset{}) && b.active.Some?
    ensures CoreInv(b.(active := None), multiset{b.active.value.id}) && Registered(b.(active := None), b.active.value)
    ensures CoreInv(Aborted(b), multiset{b.active.value.id}) && Registered(Aborted(b), b.active.value)
  {
    hide Ids, NotifiedIds, FindClient;
  }

  /** Ending a transfer by a report and then starting the next one leaves nothing waiting without a transfer active. */
  lemma FinishKeeps(b: Bus, t: Transaction, result: TransactionResult)
    requires CoreInv(b, multiset{t.id}) && Registered(b, t)
    ensures Inv(StartNext(Notify(b, t, result)))
  {
    NotifyKeeps(b, t, result, multiset{});
    StartNextKeeps(Notify(b, t, result), multiset{});
    hide CoreInv, Notify, StartNext;
  }

  // ---------- Runs ----------

  datatype Event =
    | SubmitEvent(request: BusRequest)
    | PortCompletion(completion: TxCompletion)
    | TickEvent(now: uint64)
    | CancelEvent(client: uint32)
    | RecoverEvent
    | SetGenerationEvent(client: uint32, generation: uint32)
    | RegisterEvent(newClient: Client)
    | BindEvent

  /** i2c_bus_bind_port, of a valid port. */
  function Bind(b: Bus): Bus {
    if b.active.Some? || b.pending != [] then b else b.(portBound := true)
  }

  function Step(b: Bus, e: Event): Bus {
    match e
    case SubmitEvent(request) => Submit(b, request).0
    case PortCompletion(completion) => Complete(b, completion).0
    case TickEvent(now) => Tick(b, now).0
    case CancelEvent(client) => CancelClient(b, client)
    case RecoverEvent => Recover(b)
    case SetGenerationEvent(client, generation) => SetClientGeneration(b, client, generation).0
    case RegisterEvent(newClient) => I2cBusManager.Register(b, newClient).0
    case BindEvent => Bind(b)
  }

  function Run(b: Bus, events: seq<Event>): Bus
    decreases |events|
  {
    if events == [] then b else Run(Step(b, events[0]), events[1..])
  }

  lemma {:induction false} FindAfterRegister(clients: seq<Client>, c: Client, id: uint32)
    requires FindClient(clients, id).Some?
    ensures FindClient(clients + [c], id) == FindClient(clients, id)
    decreases |clients|
  {
    if clients[0].id != id {
      assert (clients + [c])[1..] == clients[1..] + [c];
      FindAfterRegister(clients[1..], c, id);
    }
  }

  lemma {:induction false} FindWithGeneration(clients: seq<Client>, id: uint32, generation: uint32, other: uint32)
    ensures FindClient(WithGeneration(clients, id, generation), other).Some? == FindClient(clients, other).Some?
    decreases |clients|
  {
    if clients != [] && clients[0].id != id {
      assert WithGeneration(clients, id, generation)[1..] == WithGeneration(clients[1..], id, generation);
      FindWithGeneration(clients[1..], id, generation, other);
    } else if clients != [] {
      assert WithGeneration(clients, id, generation)[1..] == clients[1..];
    }
  }

  lemma ClientsKeep(b: Bus, c: Bus, extra: multiset<nat>)
    requires CoreInv(b, extra) && c == b.(clients := c.clients, portBound := c.portBound)
    requires forall id :: FindClient(b.clients, id).Some? ==> FindClient(c.clients, id).Some?
    ensures CoreInv(c, extra)
  {
    hide Ids, NotifiedIds, FindClient;
  }

  lemma StepKeeps(b: Bus, e: Event)
    requires Inv(b)
    ensures Inv(Step(b, e))
  {
    hide CoreInv, Submit, Notify, StartNext, CancelPending;
    match e
    case SubmitEvent(request) =>
      SubmitKeeps(b, request, multiset{});
      SubmitLeavesActive(b, request);
    case PortCompletion(completion) =>
      if Current(b, completion) {
        EndKeeps(b);
        FinishKeeps(b.(active := None), b.active.value, completion.result);
      }
    case TickEvent(now) =>
      if b.active.Some? {
        EndKeeps(b);
        FinishKeeps(Aborted(b), b.active.value, TxTimeout);
      }
    case CancelEvent(client) =>
      CancelKeeps(b, client);
    case RecoverEvent =>
      if b.active.Some? {
        EndKeeps(b);
        FinishKeeps(Aborted(b), b.active.value, TxCancelled);
      } else {
        IdleRecovers(b);
      }
    case SetGenerationEvent(client, generation) =>
      forall id ensures FindClient(WithGeneration(b.clients, client, generation), id).Some? == FindClient(b.clients, id).Some? {
        FindWithGeneration(b.clients, client, generation, id);
      }
      ClientsKeep(b, SetClientGeneration(b, client, generation).0, multiset{});
    case RegisterEvent(c) =>
      forall id | FindClient(b.clients, id).Some? ensures FindClient(b.clients + [c], id).Some? {
        FindAfterRegister(b.clients, c, id);
      }
      ClientsKeep(b, I2cBusManager.Register(b, c).0, multiset{});
    case BindEvent =>
      ClientsKeep(b, Bind(b), multiset{});
  }

  lemma SubmitLeavesActive(b: Bus, r: BusRequest)
    requires b.pending != [] ==> b.active.Some?
    ensures var c := Submit(b, r).0; c.pending != [] ==> c.active.Some?
  {
  }

  lemma IdleRecovers(b: Bus)
    requires Inv(b) && b.active.None?
    ensures Inv(Recover(b))
  {
    var c := b.(generation := b.generation + 1);
    hide Partition, FindClient;
    assert StartNext(c) == c;
  }

  lemma {:induction false} CancelLeavesActive(b: Bus, client: uint32, i: nat)
    requires b.pending != [] ==> b.active.Some?
    ensures var c := CancelPending(b, client, i); c.pending != [] ==> c.active.Some?
    decreases |b.world.reactions|, |b.pending| - i
  {
    if i < |b.pending| {
      if b.pending[i].request.clientId != client {
        CancelLeavesActive(b, client, i + 1);
      } else {
        CancelLeavesActive(Notify(b.(pending := Removed(b.pending, i)), b.pending[i], TxCancelled), client, i);
      }
    }
  }

  lemma CancelKeeps(b: Bus, client: uint32)
    requires Inv(b)
    ensures Inv(CancelClient(b, client))
  {
    CancelPendingKeeps(b, client, 0);
    CancelLeavesActive(b, client, 0);
    hide CoreInv, CancelPending, StartNext, Notify, Aborted;
    var c := CancelPending(b, client, 0);
    if c.active.Some? {
      EndKeeps(c);
      FinishKeeps(Aborted(c), c.active.value, TxCancelled);
    }
  }

  /** A fresh bus, whatever the port and the callbacks will do. */
  predicate Fresh(b: Bus) {
    b == InitialBus(b.portBound, b.world) && b.world.accepted == [] && b.world.notified == [] && b.world.aborted == []
  }

  lemma {:induction false} RunKeeps(b: Bus, events: seq<Event>)
    requires Inv(b)
    ensures Inv(Run(b, events))
    decreases |events|
  {
    if events != [] {
      StepKeeps(b, events[0]);
      RunKeeps(Step(b, events[0]), events[1..]);
    }
  }

  lemma FreshHolds(b: Bus)
    requires Fresh(b)
    ensures Inv(b)
  {
  }

  // ---------- Exactly one place, exactly one completion ----------

  lemma {:induction false} AscendingCounts(s: seq<nat>, bound: nat, id: nat)
    requires Ascending(s, bound)
    ensures multiset(s)[id] == if id in s then 1 else 0
    decreases |s|
  {
    if s != [] {
      var last := |s| - 1;
      assert s == s[..last] + [s[last]];
      AscendingCounts(s[..last], bound, id);
    }
  }

  /** In every run: an identifier that was handed out has been reported exactly once, or is active, or waits, and only
      one of these; any other identifier is nowhere. */
  lemma ExactlyOnePlace(b: Bus, events: seq<Event>, id: nat)
    requires Fresh(b)
    ensures var e := Run(b, events);
      multiset(NotifiedIds(e.world.notified))[id] + multiset(Ids(e.pending))[id] + ActiveIds(e)[id]
        == if id in e.world.accepted then 1 else 0
  {
    FreshHolds(b);
    RunKeeps(b, events);
    var e := Run(b, events);
    AscendingCounts(e.world.accepted, e.nextId, id);
    hide Run, Ids, NotifiedIds;
  }

  // ---------- Histories only grow ----------

  predicate Extends(b: Bus, c: Bus) {
    && b.world.accepted <= c.world.accepted && b.world.notified <= c.world.notified && b.world.aborted <= c.world.aborted
    && b.generation <= c.generation
  }

  lemma {:induction false} SubmitAllExtends(b: Bus, rs: seq<BusRequest>)
    ensures Extends(b, SubmitAll(b, rs)) && SubmitAll(b, rs).clients == b.clients
    decreases |rs|
  {
    if rs != [] {
      SubmitAllExtends(Submit(b, rs[0]).0, rs[1..]);
    }
  }

  lemma NotifyExtends(b: Bus, t: Transaction, result: TransactionResult)
    ensures Extends(b, Notify(b, t, result))
    ensures Registered(b, t) ==> b.world.notified + [CompletionOf(t, result)] <= Notify(b, t, result).world.notified
  {
    var told := b.(world := b.world.(notified := b.world.notified + [CompletionOf(t, result)]));
    if b.world.reactions != [] {
      SubmitAllExtends(told.(world := told.world.(reactions := b.world.reactions[1..])), b.world.reactions[0]);
    }
    hide SubmitAll, FindClient;
  }

  lemma {:induction false} StartNextExtends(b: Bus)
    ensures Extends(b, StartNext(b))
    decreases |b.pending|
  {
    if b.active.None? && b.pending != [] {
      var best := Best(b.pending);
      var started := I2cBusManager.Start(b.(pending := Removed(b.pending, best)), b.pending[best]);
      hide Notify, I2cBusManager.Start;
      if started.active.None? {
        NotifyExtends(started, b.pending[best], TxFailed);
        var told := Notify(started, b.pending[best], TxFailed);
        if told.active.None? {
          StartNextExtends(told);
        }
      }
    }
  }

  lemma {:induction false} CancelPendingExtends(b: Bus, client: uint32, i: nat)
    ensures Extends(b, CancelPending(b, client, i))
    decreases |b.world.reactions|, |b.pending| - i
  {
    hide Notify;
    if i < |b.pending| {
      if b.pending[i].request.clientId != client {
        CancelPendingExtends(b, client, i + 1);
      } else {
        var without := b.(pending := Removed(b.pending, i));
        NotifyExtends(without, b.pending[i], TxCancelled);
        CancelPendingExtends(Notify(without, b.pending[i], TxCancelled), client, i);
      }
    }
  }

  lemma EndExtends(b: Bus, t: Transaction, result: TransactionResult)
    ensures Extends(b, StartNext(Notify(b, t, result)))
    ensures Registered(b, t) ==> b.world.notified + [CompletionOf(t, result)] <= StartNext(Notify(b, t, result)).world.notified
  {
    NotifyExtends(b, t, result);
    StartNextExtends(Notify(b, t, result));
    hide Notify, StartNext, Registered;
  }

  lemma StepExtends(b: Bus, e: Event)
    ensures Extends(b, Step(b, e))
  {
    hide Notify, StartNext, CancelPending;
    match e
    case PortCompletion(completion) =>
      if Current(b, completion) {
        EndExtends(b.(active := None), b.active.value, completion.result);
      }
    case TickEvent(now) =>
      if b.active.Some? {
        EndExtends(Aborted(b), b.active.value, TxTimeout);
      }
    case CancelEvent(client) =>
      CancelPendingExtends(b, client, 0);
      var c := CancelPending(b, client, 0);
      if c.active.Some? {
        EndExtends(Aborted(c), c.active.value, TxCancelled);
      }
    case RecoverEvent =>
      if b.active.Some? {
        EndExtends(Aborted(b), b.active.value, TxCancelled);
      } else {
        StartNextExtends(b.(generation := b.generation + 1));
      }
    case _ =>
  }

  lemma {:induction false} RunExtends(b: Bus, events: seq<Event>)
    ensures Extends(b, Run(b, events))
    decreases |events|
  {
    if events != [] {
      StepExtends(b, events[0]);
      RunExtends(Step(b, events[0]), events[1..]);
    }
  }

  // ---------- Nothing late is taken ----------

  /** The completion of a transfer that timed out, was cancelled or was swept away by a recovery is refused for ever,
      whatever has been started since: its generation is past. */
  lemma AbortedIsStale(b: Bus, before: seq<Event>, after: seq<Event>, t: Transaction, result: TransactionResult)
    requires Fresh(b) && t in Run(b, before).world.aborted
    ensures var e := Run(Run(b, before), after);
      t.busGeneration < e.generation && Complete(e, CompletionOf(t, result)) == (e, false)
  {
    FreshHolds(b);
    RunKeeps(b, before);
    RunKeeps(Run(b, before), after);
    RunExtends(Run(b, before), after);
    var e := Run(Run(b, before), after);
    var i :| 0 <= i < |Run(b, before).world.aborted| && Run(b, before).world.aborted[i] == t;
    assert e.world.aborted[i] == t;
    hide Run;
  }

  /** No tuple with the identifier of a transfer already reported is taken, so no transfer is reported twice. */
  lemma ReportedIsStale(b: Bus, events: seq<Event>, c: TxCompletion)
    requires Fresh(b) && c.id in NotifiedIds(Run(b, events).world.notified)
    ensures var e := Run(b, events); Complete(e, c) == (e, false)
  {
    ExactlyOnePlace(b, events, c.id);
    hide Run;
  }

  // ---------- Order of service ----------

  lemma {:induction false} BestAmongIsLeast(b: Bus, n: nat)
    requires QueueOk(b) && 0 < n <= |b.pending|
    ensures forall i :: 0 <= i < n && i != BestAmong(b.pending, n) ==> Before(b.pending[BestAmong(b.pending, n)], b.pending[i])
    decreases n
  {
    if n > 1 {
      BestAmongIsLeast(b, n - 1);
    }
  }

  predicate Ordered(ts: seq<Transaction>) {
    forall i, j :: 0 <= i < j < |ts| ==> Before(ts[i], ts[j])
  }

  function Failures(ts: seq<Transaction>): seq<TxCompletion> {
    seq(|ts|, i requires 0 <= i < |ts| => CompletionOf(ts[i], TxFailed))
  }

  /** The waiting transfers by priority, and by admission within it. */
  function InOrder(pending: seq<Transaction>): (order: seq<Transaction>)
    ensures |order| == |pending|
    decreases |pending|
  {
    if pending == [] then []
    else
      var best := Best(pending);
      [pending[best]] + InOrder(Removed(pending, best))
  }

  lemma {:induction false} InOrderIsSorted(b: Bus)
    requires QueueOk(b)
    ensures multiset(InOrder(b.pending)) == multiset(b.pending) && Ordered(InOrder(b.pending))
    decreases |b.pending|
  {
    if b.pending != [] {
      var best := Best(b.pending);
      var rest := Removed(b.pending, best);
      BestAmongIsLeast(b, |b.pending|);
      RemoveFromQueue(b, best);
      InOrderIsSorted(b.(pending := rest));
      RemovedBag(b.pending, best);
      BeforeRest(b.pending, best);
      var tail := InOrder(rest);
      assert InOrder(b.pending) == [b.pending[best]] + tail;
      hide InOrder, Best, Removed, QueueOk, Ordered, Before;
      LeastFirst(b.pending[best], rest, tail);
    }
  }

  lemma BeforeRest(pending: seq<Transaction>, best: nat)
    requires best < |pending|
    requires forall i :: 0 <= i < |pending| && i != best ==> Before(pending[best], pending[i])
    ensures forall k :: 0 <= k < |Removed(pending, best)| ==> Before(pending[best], Removed(pending, best)[k])
  {
    var rest := Removed(pending, best);
    assert forall k :: 0 <= k < |rest| ==> rest[k] == pending[if k < best then k else k + 1];
    hide Before, Removed;
  }

  lemma LeastFirst(t: Transaction, rest: seq<Transaction>, order: seq<Transaction>)
    requires forall k :: 0 <= k < |rest| ==> Before(t, rest[k])
    requires multiset(order) == multiset(rest) && Ordered(order)
    ensures Ordered([t] + order)
  {
    forall j | 0 <= j < |order|
      ensures Before(t, order[j])
    {
      assert order[j] in multiset(order);
      assert order[j] in rest;
    }
  }

  lemma FailuresCons(t: Transaction, tail: seq<Transaction>, rest: nat)
    requires rest <= |tail|
    ensures Failures(([t] + tail)[..rest + 1]) == [CompletionOf(t, TxFailed)] + Failures(tail[..rest])
    ensures rest < |tail| ==> ([t] + tail)[rest + 2..] == tail[rest + 1..]
    ensures ([t] + tail)[rest + 1..] == tail[rest..]
  {
    assert ([t] + tail)[..rest + 1] == [t] + tail[..rest];
  }
}
