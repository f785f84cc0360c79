/** The priority event queue of app_event_queue.c, as a sequence in order of admission. */
module EventQueue {
  import opened Bits
  import opened Sequences
  import opened StorageRecord

  const MAX_CAPACITY: nat := 64
  const FAIRNESS: nat := 4
  const CRITICAL: nat := 0
  const MEASUREMENT: nat := 1
  const SHARED_RESOURCE: nat := 2
  const CONFIG: nat := 3
  const BACKGROUND: nat := 4

  datatype Delivery = Edge | Completion | Level | Deadline | Mailbox

  datatype Event = Event(
    id: nat, source: uint32, priority: nat, delivery: Delivery, sequence: uint32, correlation: uint32,
    generation: uint32, timestamp: uint64, payload: seq<uint8>)

  datatype PostResult = PostOk | PostCoalesced | PostBackpressure | PostOverflowEscalated

  datatype QueueConfig = QueueConfig(capacity: nat, reservedCritical: nat, reservedMeasurement: nat)

  datatype Queue = Queue(events: seq<Event>, config: QueueConfig, streak: nat, emergency: bool)

  /** app_event_queue_init clamps. */
  function Clamped(c: QueueConfig): QueueConfig {
    var capacity := if c.capacity > MAX_CAPACITY then MAX_CAPACITY else c.capacity;
    QueueConfig(capacity, if c.reservedCritical > capacity then capacity else c.reservedCritical,
                if c.reservedMeasurement > capacity then capacity else c.reservedMeasurement)
  }

  predicate QueueOk(q: Queue) {
    |q.events| <= q.config.capacity <= MAX_CAPACITY && q.config.reservedCritical <= q.config.capacity && q.streak <= FAIRNESS
  }

  /** A pending level event that the new one replaces. */
  predicate SameLevel(a: Event, e: Event) {
    a.id == e.id && a.source == e.source && a.delivery == Level
  }

  /** find_coalesce_target, from position i on. */
  function CoalesceTarget(events: seq<Event>, e: Event, i: nat): (at: nat)
    requires i <= |events|
    ensures i <= at <= |events|
    ensures at < |events| ==> SameLevel(events[at], e)
    ensures forall k :: i <= k < at ==> !SameLevel(events[k], e)
    decreases |events| - i
  {
    if i == |events| || SameLevel(events[i], e) then i else CoalesceTarget(events, e, i + 1)
  }

  /** app_event_queue_post. */
  function Post(q: Queue, e: Event): (Queue, PostResult)
    requires QueueOk(q)
  {
    var target := if e.delivery == Level then CoalesceTarget(q.events, e, 0) else |q.events|;
    if target < |q.events| then (q.(events := q.events[target := e]), PostCoalesced)
    else if e.priority != CRITICAL && e.priority != MEASUREMENT then
      if |q.events| >= q.config.capacity - q.config.reservedCritical then (q, PostBackpressure)
      else (q.(events := q.events + [e]), PostOk)
    else if |q.events| >= q.config.capacity then
      if e.priority == CRITICAL then (q.(emergency := true), PostOverflowEscalated) else (q, PostBackpressure)
    else (q.(events := q.events + [e]), PostOk)
  }

  /** The first of the n oldest events that no other of them outranks. */
  function FirstBest(events: seq<Event>, n: nat): (best: nat)
    requires 0 < n <= |events|
    ensures best < n
    ensures forall k :: 0 <= k < n ==> events[best].priority <= events[k].priority
    ensures forall k :: 0 <= k < best ==> events[best].priority < events[k].priority
  {
    if n == 1 then 0
    else
      var best := FirstBest(events, n - 1);
      if events[n - 1].priority < events[best].priority then n - 1 else best
  }

  /** After FAIRNESS urgent dequeues in a row, the oldest event; otherwise the oldest of the highest priority. */
  function Next(q: Queue): (at: nat)
    requires q.events != []
    ensures at < |q.events|
  {
    if q.streak >= FAIRNESS then 0 else FirstBest(q.events, |q.events|)
  }

  /** app_event_queue_try_get. */
  function Get(q: Queue): (Queue, Option<Event>) {
    if q.events == [] then (q, None)
    else
      var at := Next(q);
      var streak := if q.streak < FAIRNESS && q.events[at].priority <= SHARED_RESOURCE then q.streak + 1 else 0;
      (q.(events := Removed(q.events, at), streak := streak), Some(q.events[at]))
  }

  // ---------- Runs ----------

  datatype Call = PostCall(event: Event) | GetCall

  /** The queue, what was accepted and what was delivered. */
  datatype History = History(queue: Queue, accepted: seq<Event>, delivered: seq<Event>)

  function Step(h: History, c: Call): History
    requires QueueOk(h.queue)
  {
    match c
    case PostCall(e) =>
      var (q, result) := Post(h.queue, e);
      h.(queue := q, accepted := if result == PostOk then h.accepted + [e] else h.accepted)
    case GetCall =>
      var (q, e) := Get(h.queue);
      h.(queue := q, delivered := if e.Some? then h.delivered + [e.value] else h.delivered)
  }

  lemma StepKeepsOk(h: History, c: Call)
    requires QueueOk(h.queue)
    ensures QueueOk(Step(h, c).queue)
  {
  }

  function Run(h: History, calls: seq<Call>): (r: History)
    requires QueueOk(h.queue)
    ensures QueueOk(r.queue)
    decreases |calls|
  {
    if calls == [] then h
    else
      StepKeepsOk(h, calls[0]);
      Run(Step(h, calls[0]), calls[1..])
  }

  // ---------- First in, first out within a priority, each exactly once ----------

  /** The events of one priority that are never coalesced, in order. */
  function OfPriority(events: seq<Event>, priority: nat): seq<Event> {
    if events == [] then []
    else
      var last := events[|events| - 1];
      OfPriority(events[..|events| - 1], priority)
        + (if last.priority == priority && last.delivery != Level then [last] else [])
  }

  lemma {:induction false} OfPriorityAppend(a: seq<Event>, b: seq<Event>, priority: nat)
    ensures OfPriority(a + b, priority) == OfPriority(a, priority) + OfPriority(b, priority)
    decreases |b|
  {
    if b == [] {
      assert a + b == a;
    } else {
      var last := |b| - 1;
      assert (a + b)[..|a| + last] == a + b[..last];
      OfPriorityAppend(a, b[..last], priority);
    }
  }

  lemma {:induction false} OfPriorityNone(events: seq<Event>, priority: nat)
    requires forall k :: 0 <= k < |events| ==> events[k].priority != priority
    ensures OfPriority(events, priority) == []
    decreases |events|
  {
    if events != [] {
      OfPriorityNone(events[..|events| - 1], priority);
    }
  }

  lemma OfPriorityOne(e: Event, priority: nat)
    ensures OfPriority([e], priority) == if e.priority == priority && e.delivery != Level then [e] else []
  {
    assert [e][..0] == [];
  }

  /** Replacing a level event by a level event is not seen. */
  lemma CoalescingUnseen(events: seq<Event>, at: nat, e: Event, priority: nat)
    requires at < |events| && events[at].delivery == Level && e.delivery == Level
    ensures OfPriority(events[at := e], priority) == OfPriority(events, priority)
  {
    var (front, back) := (events[..at], events[at + 1..]);
    assert events == (front + [events[at]]) + back && events[at := e] == (front + [e]) + back;
    OfPriorityAppend(front, [events[at]], priority);
    OfPriorityAppend(front + [events[at]], back, priority);
    OfPriorityAppend(front, [e], priority);
    OfPriorityAppend(front + [e], back, priority);
    OfPriorityOne(events[at], priority);
    OfPriorityOne(e, priority);
  }

  /** What is taken out is the first of its priority. */
  lemma TakesFirst(q: Queue, priority: nat)
    requires q.events != []
    ensures var (r, e) := Get(q);
      OfPriority(q.events, priority) == OfPriority([e.value], priority) + OfPriority(r.events, priority)
  {
    var at := Next(q);
    var (front, e, back) := (q.events[..at], q.events[at], q.events[at + 1..]);
    assert q.events == (front + [e]) + back;
    OfPriorityAppend(front, [e], priority);
    OfPriorityAppend(front + [e], back, priority);
    OfPriorityAppend(front, back, priority);
    OfPriorityOne(e, priority);
    if e.priority == priority {
      OfPriorityNone(front, priority);
    }
    assert Get(q).0.events == front + back && Get(q).1 == Some(e);
    hide OfPriority, Get, Next;
    TakenOut(OfPriority(front, priority), OfPriority([e], priority), OfPriority(back, priority));
  }

  lemma TakenOut<T>(front: seq<T>, one: seq<T>, back: seq<T>)
    requires front == [] || one == []
    ensures front + one + back == one + (front + back)
  {
  }

  predicate InOrder(h: History, priority: nat) {
    OfPriority(h.accepted, priority) == OfPriority(h.delivered, priority) + OfPriority(h.queue.events, priority)
  }

  lemma StepKeepsOrder(h: History, c: Call, priority: nat)
    requires QueueOk(h.queue) && InOrder(h, priority)
    ensures InOrder(Step(h, c), priority)
  {
    hide OfPriority;
    match c
    case PostCall(e) =>
      var result := Post(h.queue, e).1;
      if result == PostCoalesced {
        CoalescingUnseen(h.queue.events, CoalesceTarget(h.queue.events, e, 0), e, priority);
      } else if result == PostOk {
        OfPriorityAppend(h.accepted, [e], priority);
        OfPriorityAppend(h.queue.events, [e], priority);
      }
    case GetCall =>
      if h.queue.events != [] {
        TakesFirst(h.queue, priority);
        OfPriorityAppend(h.delivered, [Get(h.queue).1.value], priority);
        hide Get;
      }
  }

  /** In every run, for every priority: the accepted events, in their order, are those delivered, in the order of
      delivery, followed by those still waiting. */
  lemma {:induction false} FifoWithinPriority(h: History, calls: seq<Call>, priority: nat)
    requires QueueOk(h.queue) && InOrder(h, priority)
    ensures InOrder(Run(h, calls), priority)
    decreases |calls|
  {
    if calls != [] {
      StepKeepsOk(h, calls[0]);
      StepKeepsOrder(h, calls[0], priority);
      FifoWithinPriority(Step(h, calls[0]), calls[1..], priority);
    }
  }

  // ---------- Bounded waiting ----------

  function Gets(calls: seq<Call>): nat {
    if calls == [] then 0 else (if calls[0].GetCall? then 1 else 0) + Gets(calls[1..])
  }

  /** The event at position k is delivered somewhere in the calls, undisturbed until then. */
  ghost predicate Delivered(q: Queue, k: nat, e: Event, calls: seq<Call>)
    requires QueueOk(q)
    decreases |calls|
  {
    && k < |q.events| && q.events[k] == e && calls != []
    && match calls[0]
       case PostCall(other) => QueueOk(Post(q, other).0) && Delivered(Post(q, other).0, k, e, calls[1..])
       case GetCall =>
         var (r, taken) := Get(q);
         if Next(q) == k then taken == Some(e)
         else QueueOk(r) && Delivered(r, if Next(q) < k then k - 1 else k, e, calls[1..])
  }

  lemma PostLeavesPlace(q: Queue, k: nat, other: Event)
    requires QueueOk(q) && k < |q.events| && q.events[k].delivery != Level
    ensures var r := Post(q, other).0; QueueOk(r) && k < |r.events| && r.events[k] == q.events[k] && r.streak == q.streak
  {
  }

  /** A dequeue takes the event, or brings its deadline one dequeue nearer. */
  lemma GetApproaches(q: Queue, k: nat)
    requires QueueOk(q) && k < |q.events| && q.events[k].priority <= CONFIG
    ensures var (r, taken) := Get(q);
      && QueueOk(r)
      && (Next(q) == k ==> taken == Some(q.events[k]))
      && (Next(q) < k ==> k - 1 < |r.events| && r.events[k - 1] == q.events[k] && 5 * k - r.streak < 5 * (k + 1) - q.streak)
      && (Next(q) > k ==> k < |r.events| && r.events[k] == q.events[k] && r.streak > q.streak)
  {
  }

  /** An event that is not coalesced, of priority CONFIG or better, with k older events ahead of it, is delivered within
      5 * (k + 1) dequeues, fewer by the length of the urgent streak so far, whatever else is posted meanwhile. */
  lemma {:induction false} DeliveredInTime(q: Queue, k: nat, calls: seq<Call>)
    requires QueueOk(q) && k < |q.events| && q.events[k].delivery != Level && q.events[k].priority <= CONFIG
    requires Gets(calls) >= 5 * (k + 1) - q.streak
    ensures Delivered(q, k, q.events[k], calls)
    decreases |calls|
  {
    assert q.streak <= 4 && calls != [];
    assert Gets(calls[1..]) == Gets(calls) - (if calls[0].GetCall? then 1 else 0);
    hide QueueOk, Get, Post, Next, Gets;
    match calls[0]
    case PostCall(other) =>
      PostLeavesPlace(q, k, other);
      DeliveredInTime(Post(q, other).0, k, calls[1..]);
    case GetCall =>
      var (r, taken) := Get(q);
      GetApproaches(q, k);
      if Next(q) < k {
        DeliveredInTime(r, k - 1, calls[1..]);
      } else if Next(q) > k {
        DeliveredInTime(r, k, calls[1..]);
      }
  }
}
