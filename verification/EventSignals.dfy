/** Level signals in app_event_queue.c: each one is delivered once, with what was posted last, or still waits. */
module EventSignals {
  import opened Bits
  import opened Sequences
  import opened StorageRecord
  import opened EventQueue
  import opened EventQueueBounds

  datatype Key = Key(id: nat, source: uint32)

  predicate Is(e: Event, key: Key) {
    e.id == key.id && e.source == key.source && e.delivery == Level
  }

  /** The level events of one identity and source, in order. */
  function Signals(events: seq<Event>, key: Key): seq<Event> {
    if events == [] then []
    else
      var (rest, last) := (Signals(events[..|events| - 1], key), events[|events| - 1]);
      if Is(last, key) then rest + [last] else rest
  }

  /** What a post makes of the signals so far: a new one, or the last one with new content. */
  function Signalled(q: Queue, signals: seq<Event>, c: Call, key: Key): seq<Event>
    requires QueueOk(q)
  {
    match c
    case GetCall => signals
    case PostCall(e) =>
      var result := Post(q, e).1;
      if !Is(e, key) then signals
      else if result == PostOk then signals + [e]
      else if result == PostCoalesced && signals != [] then signals[|signals| - 1 := e]
      else signals
  }

  function SignalledAll(h: History, signals: seq<Event>, calls: seq<Call>, key: Key): seq<Event>
    requires QueueOk(h.queue)
    decreases |calls|
  {
    if calls == [] then signals
    else
      StepKeepsOk(h, calls[0]);
      SignalledAll(Step(h, calls[0]), Signalled(h.queue, signals, calls[0], key), calls[1..], key)
  }

  // ---------- Signals of a list ----------

  lemma {:induction false} SignalsAppend(a: seq<Event>, b: seq<Event>, key: Key)
    ensures Signals(a + b, key) == Signals(a, key) + Signals(b, key)
    decreases |b|
  {
    if b == [] {
      assert a + b == a;
    } else {
      var last := |b| - 1;
      assert (a + b)[..|a + b| - 1] == a + b[..last] && (a + b)[|a + b| - 1] == b[last];
      SignalsAppend(a, b[..last], key);
      hide Is;
    }
  }

  lemma SignalsOne(e: Event, key: Key)
    ensures Signals([e], key) == if Is(e, key) then [e] else []
  {
    assert [e][..0] == [];
  }

  lemma {:induction false} SignalsNone(events: seq<Event>, key: Key)
    requires forall k :: 0 <= k < |events| ==> !Is(events[k], key)
    ensures Signals(events, key) == []
    decreases |events|
  {
    if events != [] {
      SignalsNone(events[..|events| - 1], key);
    }
  }

  /** A list seen around one of its entries. */
  lemma SignalsAround(events: seq<Event>, at: nat, e: Event, key: Key)
    requires at < |events|
    ensures Signals(events[at := e], key) == Signals(events[..at], key) + Signals([e], key) + Signals(events[at + 1..], key)
    ensures Signals(events, key) == Signals(events[..at], key) + Signals([events[at]], key) + Signals(events[at + 1..], key)
    ensures Signals(Removed(events, at), key) == Signals(events[..at], key) + Signals(events[at + 1..], key)
  {
    hide *;
    var front, one, back := events[..at], [e], events[at + 1..];
    assert events[at := e] == front + one + back && events == front + [events[at]] + back;
    RemovedIs(events, at);
    SignalsAppend(front, one, key);
    SignalsAppend(front + one, back, key);
    SignalsAppend(front, [events[at]], key);
    SignalsAppend(front + [events[at]], back, key);
    SignalsAppend(front, back, key);
  }

  lemma RemovedIs(events: seq<Event>, at: nat)
    requires at < |events|
    ensures Removed(events, at) == events[..at] + events[at + 1..]
  {
  }

  lemma AloneAround(events: seq<Event>, at: nat, key: Key)
    requires at < |events| && LevelsDistinct(events) && Is(events[at], key)
    ensures Signals(events[..at], key) == [] && Signals(events[at + 1..], key) == []
  {
    var (front, back) := (events[..at], events[at + 1..]);
    forall k | 0 <= k < |front|
      ensures !Is(front[k], key)
    {
      assert front[k] == events[k] && !SameLevel(events[k], events[at]);
    }
    forall k | 0 <= k < |back|
      ensures !Is(back[k], key)
    {
      assert back[k] == events[at + 1 + k] && (back[k].delivery == Level ==> !SameLevel(events[at], events[at + 1 + k]));
    }
    SignalsNone(front, key);
    SignalsNone(back, key);
  }

  // ---------- Runs ----------

  /** The signals are those delivered, in the order of delivery, followed by the one that still waits, if any. */
  ghost predicate Accounted(h: History, signals: seq<Event>, key: Key) {
    && LevelsDistinct(h.queue.events)
    && signals == Signals(h.delivered, key) + Signals(h.queue.events, key)
  }

  lemma {:induction false} OneWaits(events: seq<Event>, key: Key)
    requires LevelsDistinct(events)
    ensures |Signals(events, key)| <= 1
    ensures Signals(events, key) == [] ==> forall k :: 0 <= k < |events| ==> !Is(events[k], key)
    decreases |events|
  {
    if at :| 0 <= at < |events| && Is(events[at], key) {
      SignalsAround(events, at, events[at], key);
      AloneAround(events, at, key);
      SignalsOne(events[at], key);
    } else {
      SignalsNone(events, key);
    }
  }

  /** Replacing a waiting signal changes the content of that one and of no other. */
  lemma SignalsReplaced(events: seq<Event>, at: nat, e: Event, key: Key)
    requires at < |events| && LevelsDistinct(events) && SameLevel(events[at], e) && e.delivery == Level
    ensures Is(e, key) ==> Signals(events, key) == [events[at]] && Signals(events[at := e], key) == [e]
    ensures !Is(e, key) ==> Signals(events[at := e], key) == Signals(events, key)
  {
    assert Is(e, key) == Is(events[at], key);
    SignalsAround(events, at, e, key);
    SignalsOne(e, key);
    SignalsOne(events[at], key);
    if Is(e, key) {
      AloneAround(events, at, key);
    }
    hide Signals, Is, LevelsDistinct, Removed;
  }

  /** Taking an event out for delivery takes a signal out only if it is one, and then it is the only one. */
  lemma SignalsTaken(events: seq<Event>, at: nat, key: Key)
    requires at < |events| && LevelsDistinct(events)
    ensures Signals(events, key) == Signals([events[at]], key) + Signals(Removed(events, at), key)
  {
    SignalsAround(events, at, events[at], key);
    SignalsOne(events[at], key);
    if Is(events[at], key) {
      AloneAround(events, at, key);
    }
    hide Signals, Is, LevelsDistinct, Removed;
  }

  lemma PostResults(h: History, e: Event)
    requires QueueOk(h.queue)
    ensures var (q, at) := (h.queue, CoalesceTarget(h.queue.events, e, 0));
      var (r, result) := (Step(h, PostCall(e)), Post(q, e).1);
      && r.delivered == h.delivered
      && (result == PostCoalesced ==>
            at < |q.events| && SameLevel(q.events[at], e) && e.delivery == Level && r.queue.events == q.events[at := e])
      && (result == PostOk ==> r.queue.events == q.events + [e])
      && (result != PostCoalesced && result != PostOk ==> r.queue.events == q.events)
  {
  }

  lemma SignalledIs(q: Queue, signals: seq<Event>, e: Event, key: Key)
    requires QueueOk(q)
    ensures var (result, after) := (Post(q, e).1, Signalled(q, signals, PostCall(e), key));
      && (Is(e, key) && result == PostOk ==> after == signals + [e])
      && (Is(e, key) && result == PostCoalesced && signals != [] ==> after == signals[|signals| - 1 := e])
      && (!Is(e, key) || (result != PostOk && result != PostCoalesced) ==> after == signals)
  {
    hide Post, Is;
  }

  lemma AccountedIs(h: History, signals: seq<Event>, key: Key)
    ensures Accounted(h, signals, key) <==>
      LevelsDistinct(h.queue.events) && signals == Signals(h.delivered, key) + Signals(h.queue.events, key)
  {
  }

  lemma PostAccounts(h: History, signals: seq<Event>, e: Event, key: Key)
    requires QueueOk(h.queue) && Accounted(h, signals, key)
    ensures Accounted(Step(h, PostCall(e)), Signalled(h.queue, signals, PostCall(e), key), key)
  {
    hide *;
    AccountedIs(h, signals, key);
    LevelsStayDistinct(h, PostCall(e));
    PostResults(h, e);
    SignalledIs(h.queue, signals, e, key);
    AccountedIs(Step(h, PostCall(e)), Signalled(h.queue, signals, PostCall(e), key), key);
    if Post(h.queue, e).1 == PostCoalesced {
      SignalsReplaced(h.queue.events, CoalesceTarget(h.queue.events, e, 0), e, key);
    } else if Post(h.queue, e).1 == PostOk {
      SignalsAppend(h.queue.events, [e], key);
      SignalsOne(e, key);
    }
  }

  lemma GetAccounts(h: History, signals: seq<Event>, key: Key)
    requires QueueOk(h.queue) && Accounted(h, signals, key)
    ensures Accounted(Step(h, GetCall), signals, key)
  {
    hide *;
    var q := h.queue;
    AccountedIs(h, signals, key);
    LevelsStayDistinct(h, GetCall);
    GetDelivers(h);
    AccountedIs(Step(h, GetCall), signals, key);
    if q.events != [] {
      SignalsTaken(q.events, Next(q), key);
      SignalsAppend(h.delivered, [q.events[Next(q)]], key);
    }
  }

  lemma GetDelivers(h: History)
    requires QueueOk(h.queue)
    ensures var (q, r) := (h.queue, Step(h, GetCall));
      if q.events == [] then r == h
      else r.queue.events == Removed(q.events, Next(q)) && r.delivered == h.delivered + [q.events[Next(q)]]
  {
    hide Next, Removed;
  }

  /** In every run, for every identity and source: the level signals that were accepted, each with the content posted last
      for it, are those delivered, in that order, each once, followed by at most one that still waits. */
  lemma {:induction false} SignalsAreDelivered(h: History, signals: seq<Event>, calls: seq<Call>, key: Key)
    requires QueueOk(h.queue) && Accounted(h, signals, key)
    ensures var r := Run(h, calls);
      && LevelsDistinct(r.queue.events) && |Signals(r.queue.events, key)| <= 1
      && SignalledAll(h, signals, calls, key) == Signals(r.delivered, key) + Signals(r.queue.events, key)
    decreases |calls|
  {
    if calls == [] {
      OneWaits(h.queue.events, key);
    } else {
      StepKeepsOk(h, calls[0]);
      match calls[0] {
        case PostCall(e) => PostAccounts(h, signals, e, key);
        case GetCall => GetAccounts(h, signals, key);
      }
      hide Step, Accounted, Signals, LevelsDistinct, Signalled, QueueOk;
      SignalsAreDelivered(Step(h, calls[0]), Signalled(h.queue, signals, calls[0], key), calls[1..], key);
    }
  }

  /** A signal is coalesced exactly while one of its identity and source waits, so there is one to give the content to. */
  lemma CoalescedIff(q: Queue, e: Event)
    requires QueueOk(q) && LevelsDistinct(q.events) && e.delivery == Level
    ensures Post(q, e).1 == PostCoalesced <==> |Signals(q.events, Key(e.id, e.source))| == 1
  {
    var key := Key(e.id, e.source);
    OneWaits(q.events, key);
    var at := CoalesceTarget(q.events, e, 0);
    if at < |q.events| {
      assert Is(q.events[at], key);
    } else {
      assert forall k :: 0 <= k < |q.events| ==> !Is(q.events[k], key) by {
        assert forall k :: 0 <= k < |q.events| ==> !SameLevel(q.events[k], e);
      }
      SignalsNone(q.events, key);
    }
    hide Signals, CoalesceTarget;
  }
}
