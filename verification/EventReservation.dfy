/** The reservation for critical events in app_event_queue.c: what it keeps free, and the two ways in which it is lost. */
module EventReservation {
  import opened Bits
  import opened Sequences
  import opened StorageRecord
  import opened EventQueue

  /** Waiting events that are not critical. */
  function Ordinary(events: seq<Event>): (n: nat)
    ensures n <= |events|
  {
    if events == [] then 0
    else Ordinary(events[..|events| - 1]) + (if events[|events| - 1].priority != CRITICAL then 1 else 0)
  }

  function Critical(events: seq<Event>): nat {
    |events| - Ordinary(events)
  }

  function Bound(q: Queue): nat
    requires QueueOk(q)
  {
    q.config.capacity - q.config.reservedCritical
  }

  /** The events that are not critical leave the reserved places free. */
  predicate Reserved(q: Queue)
    requires QueueOk(q)
  {
    Ordinary(q.events) <= Bound(q)
  }

  /** Where the event replaces a waiting one; the number of waiting events if it does not. */
  function Target(q: Queue, e: Event): (at: nat)
    ensures at <= |q.events|
  {
    if e.delivery == Level then CoalesceTarget(q.events, e, 0) else |q.events|
  }

  /** A measurement event takes a reserved place: it is appended while the others are at the bound. */
  predicate TakesPlace(q: Queue, e: Event)
    requires QueueOk(q)
  {
    && e.priority == MEASUREMENT && Target(q, e) == |q.events| < q.config.capacity
    && Ordinary(q.events) == Bound(q)
  }

  /** A level event that is not critical replaces a critical one while the others are at the bound. */
  predicate Demotes(q: Queue, e: Event)
    requires QueueOk(q)
  {
    && e.priority != CRITICAL && Target(q, e) < |q.events| && q.events[Target(q, e)].priority == CRITICAL
    && Ordinary(q.events) == Bound(q)
  }

  // ---------- Counting ----------

  lemma {:induction false} OrdinaryAppend(a: seq<Event>, b: seq<Event>)
    ensures Ordinary(a + b) == Ordinary(a) + Ordinary(b)
    decreases |b|
  {
    if b == [] {
      assert a + b == a;
    } else {
      assert (a + b)[..|a + b| - 1] == a + b[..|b| - 1];
      OrdinaryAppend(a, b[..|b| - 1]);
    }
  }

  lemma OrdinaryOne(e: Event)
    ensures Ordinary([e]) == if e.priority != CRITICAL then 1 else 0
  {
    assert [e][..0] == [];
  }

  lemma OrdinaryWithout(events: seq<Event>, at: nat)
    requires at < |events|
    ensures Ordinary(events) == Ordinary(Removed(events, at)) + Ordinary([events[at]])
  {
    hide *;
    var front, one, back := events[..at], [events[at]], events[at + 1..];
    assert events == front + one + back;
    RemovedIs(events, at);
    OrdinaryAppend(front, back);
    OrdinaryAppend(front, one);
    OrdinaryAppend(front + one, back);
  }

  lemma RemovedIs(events: seq<Event>, at: nat)
    requires at < |events|
    ensures Removed(events, at) == events[..at] + events[at + 1..]
  {
  }

  lemma OrdinaryReplaced(events: seq<Event>, at: nat, e: Event)
    requires at < |events|
    ensures Ordinary(events[at := e]) == Ordinary(events) + Ordinary([e]) - Ordinary([events[at]])
  {
    var replaced := events[at := e];
    assert Removed(replaced, at) == Removed(events, at);
    OrdinaryWithout(events, at);
    OrdinaryWithout(replaced, at);
    hide Ordinary, Removed;
  }

  // ---------- When the reservation is kept ----------

  /** A post keeps the reservation exactly if it is neither of the two. */
  lemma PostKeepsReservedIff(q: Queue, e: Event)
    requires QueueOk(q) && Reserved(q)
    ensures QueueOk(Post(q, e).0)
    ensures Reserved(Post(q, e).0) <==> !TakesPlace(q, e) && !Demotes(q, e)
  {
    OrdinaryAppend(q.events, [e]);
    OrdinaryOne(e);
    if Target(q, e) < |q.events| {
      OrdinaryReplaced(q.events, Target(q, e), e);
      OrdinaryOne(q.events[Target(q, e)]);
    }
    hide Ordinary, CoalesceTarget;
  }

  lemma GetKeepsReserved(q: Queue)
    requires QueueOk(q) && Reserved(q)
    ensures QueueOk(Get(q).0) && Reserved(Get(q).0)
  {
    if q.events != [] {
      OrdinaryWithout(q.events, Next(q));
    }
    hide Ordinary, Next;
  }

  predicate Spoils(q: Queue, c: Call)
    requires QueueOk(q)
  {
    c.PostCall? && (TakesPlace(q, c.event) || Demotes(q, c.event))
  }

  lemma StepKeepsReservedIff(h: History, c: Call)
    requires QueueOk(h.queue) && Reserved(h.queue)
    ensures QueueOk(Step(h, c).queue)
    ensures Reserved(Step(h, c).queue) <==> !Spoils(h.queue, c)
  {
    match c
    case PostCall(e) =>
      PostKeepsReservedIff(h.queue, e);
      hide Reserved, TakesPlace, Demotes, Post;
    case GetCall =>
      GetKeepsReserved(h.queue);
      hide Reserved, Get;
  }

  /** The reservation holds at every point of the run. */
  predicate ReservedThroughout(h: History, calls: seq<Call>)
    requires QueueOk(h.queue)
    decreases |calls|
  {
    Reserved(h.queue) && (calls == [] || (StepKeepsOk(h, calls[0]); ReservedThroughout(Step(h, calls[0]), calls[1..])))
  }

  /** No call of the run is one of the two. */
  predicate NeverSpoiled(h: History, calls: seq<Call>)
    requires QueueOk(h.queue)
    decreases |calls|
  {
    calls == []
    || (!Spoils(h.queue, calls[0]) && (StepKeepsOk(h, calls[0]); NeverSpoiled(Step(h, calls[0]), calls[1..])))
  }

  /** Over every run from a queue that keeps the reservation, it holds throughout exactly if no call is one of the two. */
  lemma {:induction false} ReservedThroughoutIff(h: History, calls: seq<Call>)
    requires QueueOk(h.queue) && Reserved(h.queue)
    ensures ReservedThroughout(h, calls) <==> NeverSpoiled(h, calls)
    ensures NeverSpoiled(h, calls) ==> Reserved(Run(h, calls).queue)
    decreases |calls|
  {
    if calls != [] {
      StepKeepsOk(h, calls[0]);
      StepKeepsReservedIff(h, calls[0]);
      hide Reserved, Spoils, Step, QueueOk;
      if !Spoils(h.queue, calls[0]) {
        ReservedThroughoutIff(Step(h, calls[0]), calls[1..]);
      }
    }
  }

  // ---------- What it is for ----------

  /** A critical event that replaces nothing is refused exactly in a full queue; and if one is refused then, at least as
      many critical events wait as places are reserved, exactly if the reservation holds. */
  lemma RefusedIff(q: Queue, e: Event)
    requires QueueOk(q) && e.priority == CRITICAL && Target(q, e) == |q.events|
    ensures Post(q, e).1 == PostOverflowEscalated <==> |q.events| == q.config.capacity
    ensures Post(q, e).1 == PostOverflowEscalated || Post(q, e).1 == PostOk
    ensures |q.events| == q.config.capacity ==>
      (Critical(q.events) >= q.config.reservedCritical <==> Reserved(q))
  {
    hide Ordinary, CoalesceTarget;
  }

  /** Over every run in which no call is one of the two, a critical event that replaces nothing is refused only while as
      many critical events wait as places are reserved. */
  lemma CriticalGetsIn(h: History, calls: seq<Call>, e: Event)
    requires QueueOk(h.queue) && Reserved(h.queue) && NeverSpoiled(h, calls)
    requires e.priority == CRITICAL && Target(Run(h, calls).queue, e) == |Run(h, calls).queue.events|
    ensures var q := Run(h, calls).queue;
      Critical(q.events) < q.config.reservedCritical ==> Post(q, e).1 == PostOk
  {
    ReservedThroughoutIff(h, calls);
    RefusedIff(Run(h, calls).queue, e);
    hide Post, Run, Reserved, Critical, NeverSpoiled;
  }

  // ---------- The two ways to lose it ----------

  function Plain(id: nat, priority: nat, delivery: Delivery): Event {
    Event(id, 0, priority, delivery, 0, 0, 0, 0, [])
  }

  /** Two places, one of them reserved. */
  function TwoPlaces(events: seq<Event>): History {
    History(Queue(events, QueueConfig(2, 1, 0), 0, false), [], [])
  }

  /** A full queue of two without a critical event refuses one. */
  lemma RefusesCritical(a: Event, b: Event)
    requires a.priority != CRITICAL && b.priority != CRITICAL
    ensures var q := TwoPlaces([a, b]).queue;
      Critical(q.events) == 0 && Post(q, Plain(3, CRITICAL, Edge)).1 == PostOverflowEscalated
  {
    assert [a, b] == [a] + [b];
    OrdinaryAppend([a], [b]);
    OrdinaryOne(a);
    OrdinaryOne(b);
    hide Ordinary;
  }

  lemma {:induction false} RunOfTwo(h: History, c: Call, d: Call)
    requires QueueOk(h.queue) && QueueOk(Step(h, c).queue)
    ensures Run(h, [c, d]) == Step(Step(h, c), d)
  {
    assert [c, d][1..] == [d] && [d][1..] == [];
    StepKeepsOk(Step(h, c), d);
    assert Run(Step(h, c), [d]) == Run(Step(Step(h, c), d), []);
    hide Step;
  }

  /** Two measurement events fill both places. */
  lemma MeasurementTakesReserved()
    ensures var q := Run(TwoPlaces([]), [PostCall(Plain(1, MEASUREMENT, Edge)), PostCall(Plain(2, MEASUREMENT, Edge))]).queue;
      Critical(q.events) == 0 && Post(q, Plain(3, CRITICAL, Edge)).1 == PostOverflowEscalated
  {
    var (a, b) := (Plain(1, MEASUREMENT, Edge), Plain(2, MEASUREMENT, Edge));
    var h := Step(TwoPlaces([]), PostCall(a));
    assert [] + [a] == [a] && [a] + [b] == [a, b];
    assert h.queue == TwoPlaces([a]).queue && Step(h, PostCall(b)).queue == TwoPlaces([a, b]).queue;
    RefusesCritical(a, b);
    hide Post, Step, Ordinary;
    RunOfTwo(TwoPlaces([]), PostCall(a), PostCall(b));
  }

  /** So do two waiting critical level events that are replaced by BACKGROUND ones. */
  lemma CoalescingTakesReserved()
    ensures var (a, b) := (Plain(1, CRITICAL, Level), Plain(2, CRITICAL, Level));
      var q := Run(TwoPlaces([a, b]), [PostCall(Plain(1, BACKGROUND, Level)), PostCall(Plain(2, BACKGROUND, Level))]).queue;
      && QueueOk(TwoPlaces([a, b]).queue) && Reserved(TwoPlaces([a, b]).queue)
      && Critical(q.events) == 0 && Post(q, Plain(3, CRITICAL, Edge)).1 == PostOverflowEscalated
  {
    var (a, b) := (Plain(1, CRITICAL, Level), Plain(2, CRITICAL, Level));
    var (c, d) := (Plain(1, BACKGROUND, Level), Plain(2, BACKGROUND, Level));
    assert [a, b] == [a] + [b];
    OrdinaryAppend([a], [b]);
    OrdinaryOne(a);
    OrdinaryOne(b);
    hide Ordinary;
    var h := Step(TwoPlaces([a, b]), PostCall(c));
    assert [a, b][0 := c] == [c, b] && [c, b][1 := d] == [c, d];
    assert CoalesceTarget([a, b], c, 0) == 0 && CoalesceTarget([c, b], d, 0) == 1;
    assert h.queue == TwoPlaces([c, b]).queue;
    assert Step(h, PostCall(d)).queue == TwoPlaces([c, d]).queue;
    RefusesCritical(c, d);
    hide Post, Step;
    RunOfTwo(TwoPlaces([a, b]), PostCall(c), PostCall(d));
  }
}
