/** Which waiting events of app_event_queue.c have a bound on the dequeues they wait for. */
module EventQueueBounds {
  import opened Bits
  import opened Sequences
  import opened StorageRecord
  import opened EventQueue

  /** Some number of dequeues is enough, whatever is posted between them. */
  ghost predicate HasBound(q: Queue, k: nat)
    requires QueueOk(q) && k < |q.events|
  {
    exists n: nat :: Enough(q, k, n)
  }

  ghost predicate Enough(q: Queue, k: nat, n: nat)
    requires QueueOk(q) && k < |q.events|
  {
    forall calls :: Gets(calls) >= n ==> Delivered(q, k, q.events[k], calls)
  }

  /** Waiting events that must be dequeued as urgent ones: a level event can still be replaced by a less urgent one. */
  function Urgent(events: seq<Event>): nat {
    UrgentFrom(events, CRITICAL)
  }

  /** Those of them that are no more urgent than least. */
  function UrgentFrom(events: seq<Event>, least: nat): nat {
    if events == [] then 0
    else
      var last := events[|events| - 1];
      UrgentFrom(events[..|events| - 1], least)
        + (if least <= last.priority <= SHARED_RESOURCE && last.delivery != Level then 1 else 0)
  }

  /** The best priority among the urgent ones; SHARED_RESOURCE + 1 if there are none. */
  function MostUrgent(events: seq<Event>): nat {
    if events == [] then SHARED_RESOURCE + 1
    else
      var (last, best) := (events[|events| - 1], MostUrgent(events[..|events| - 1]));
      if last.delivery != Level && last.priority < best then last.priority else best
  }

  /** The queue is full, nothing in it can be replaced, and the event is the next one. */
  predicate Stuck(q: Queue, k: nat)
    requires k < |q.events|
  {
    && |q.events| == q.config.capacity
    && forall j :: 0 <= j < |q.events| && j != k ==> q.events[j].delivery != Level && !Outranks(q.events, j, k)
  }

  predicate Outranks(events: seq<Event>, j: nat, k: nat)
    requires j < |events| && k < |events|
  {
    events[j].priority < events[k].priority || (events[j].priority == events[k].priority && j < k)
  }

  /** No two waiting level events have the same id and source. */
  ghost predicate LevelsDistinct(events: seq<Event>) {
    forall i, j :: 0 <= i < j < |events| && events[j].delivery == Level ==> !SameLevel(events[i], events[j])
  }

  lemma LevelsStayDistinct(h: History, c: Call)
    requires QueueOk(h.queue) && LevelsDistinct(h.queue.events)
    ensures LevelsDistinct(Step(h, c).queue.events)
  {
  }

  // ---------- Counting ----------

  lemma {:induction false} UrgentAppend(a: seq<Event>, b: seq<Event>, least: nat)
    ensures UrgentFrom(a + b, least) == UrgentFrom(a, least) + UrgentFrom(b, least)
    decreases |b|
  {
    if b == [] {
      assert a + b == a;
    } else {
      assert (a + b)[..|a + b| - 1] == a + b[..|b| - 1];
      UrgentAppend(a, b[..|b| - 1], least);
    }
  }

  lemma UrgentOne(e: Event, least: nat)
    ensures UrgentFrom([e], least) == if least <= e.priority <= SHARED_RESOURCE && e.delivery != Level then 1 else 0
  {
    assert [e][..0] == [];
  }

  lemma UrgentWithout(events: seq<Event>, at: nat, least: nat)
    requires at < |events|
    ensures UrgentFrom(events, least) == UrgentFrom(Removed(events, at), least) + UrgentFrom([events[at]], least)
  {
    var (front, back) := (events[..at], events[at + 1..]);
    assert Removed(events, at) == front + back && events == (front + [events[at]]) + back;
    UrgentAppend(front, back, least);
    UrgentAppend(front, [events[at]], least);
    UrgentAppend(front + [events[at]], back, least);
    hide UrgentFrom;
  }

  lemma UrgentReplaced(events: seq<Event>, at: nat, e: Event, least: nat)
    requires at < |events| && events[at].delivery == Level == e.delivery
    ensures UrgentFrom(events[at := e], least) == UrgentFrom(events, least)
  {
    var replaced := events[at := e];
    assert Removed(replaced, at) == Removed(events, at);
    UrgentWithout(events, at, least);
    UrgentWithout(replaced, at, least);
    UrgentOne(events[at], least);
    UrgentOne(e, least);
    hide UrgentFrom, Removed;
  }

  lemma {:induction false} FewerFrom(events: seq<Event>, least: nat, more: nat)
    requires least <= more
    ensures UrgentFrom(events, more) <= UrgentFrom(events, least)
    decreases |events|
  {
    if events != [] {
      FewerFrom(events[..|events| - 1], least, more);
    }
  }

  lemma {:induction false} AllFrom(events: seq<Event>, least: nat)
    requires forall j :: 0 <= j < |events| && events[j].delivery != Level ==> least <= events[j].priority
    ensures Urgent(events) == UrgentFrom(events, least)
    decreases |events|
  {
    if events != [] {
      AllFrom(events[..|events| - 1], least);
    }
  }

  lemma {:induction false} NoneBeyond(events: seq<Event>, least: nat)
    requires least > SHARED_RESOURCE
    ensures UrgentFrom(events, least) == 0
    decreases |events|
  {
    if events != [] {
      NoneBeyond(events[..|events| - 1], least);
    }
  }

  lemma {:induction false} MostUrgentIsLeast(events: seq<Event>)
    ensures MostUrgent(events) <= SHARED_RESOURCE + 1
    ensures forall j :: 0 <= j < |events| && events[j].delivery != Level ==>
      (MostUrgent(events) <= events[j].priority || SHARED_RESOURCE < events[j].priority)
    ensures MostUrgent(events) <= SHARED_RESOURCE ==>
      exists j :: 0 <= j < |events| && events[j].delivery != Level && events[j].priority == MostUrgent(events)
    decreases |events|
  {
    if events != [] {
      var rest := events[..|events| - 1];
      MostUrgentIsLeast(rest);
      assert forall j :: 0 <= j < |rest| ==> events[j] == rest[j];
    }
  }

  lemma {:induction false} UrgentIsThere(events: seq<Event>) returns (at: nat)
    requires Urgent(events) > 0
    ensures at < |events| && events[at].priority <= SHARED_RESOURCE && events[at].delivery != Level
    decreases |events|
  {
    at := |events| - 1;
    if !(events[at].priority <= SHARED_RESOURCE && events[at].delivery != Level) {
      at := UrgentIsThere(events[..|events| - 1]);
    }
  }

  lemma {:induction false} NothingUrgent(events: seq<Event>)
    requires Urgent(events) == 0
    ensures forall j :: 0 <= j < |events| && events[j].delivery != Level ==> events[j].priority > SHARED_RESOURCE
    decreases |events|
  {
    if events != [] {
      var rest := events[..|events| - 1];
      NothingUrgent(rest);
      assert forall j :: 0 <= j < |rest| ==> events[j] == rest[j];
    }
  }

  // ---------- Putting the event off ----------

  /** There are calls with n dequeues that leave the event waiting. */
  ghost predicate CanWait(q: Queue, k: nat, n: nat)
    requires QueueOk(q) && k < |q.events|
  {
    exists calls :: Gets(calls) >= n && !Delivered(q, k, q.events[k], calls)
  }

  lemma WaitsAfterPost(q: Queue, k: nat, other: Event, n: nat)
    requires QueueOk(q) && k < |q.events| && q.events[k].delivery != Level
    ensures QueueOk(Post(q, other).0) && k < |Post(q, other).0.events|
    ensures CanWait(Post(q, other).0, k, n) ==> CanWait(q, k, n)
  {
    PostLeavesPlace(q, k, other);
    var r := Post(q, other).0;
    if CanWait(r, k, n) {
      var calls :| Gets(calls) >= n && !Delivered(r, k, r.events[k], calls);
      hide Post, QueueOk;
      assert ([PostCall(other)] + calls)[1..] == calls;
      assert Gets([PostCall(other)] + calls) >= n;
      assert !Delivered(q, k, q.events[k], [PostCall(other)] + calls);
    }
  }

  /** Where the event is after a dequeue of another one. */
  function Moved(q: Queue, k: nat): nat
    requires q.events != []
  {
    if Next(q) < k then k - 1 else k
  }

  lemma WaitsAfterGet(q: Queue, k: nat, n: nat)
    requires QueueOk(q) && k < |q.events| && Next(q) != k
    ensures var r := Get(q).0;
      QueueOk(r) && Moved(q, k) < |r.events| && r.events[Moved(q, k)] == q.events[k]
      && (CanWait(r, Moved(q, k), n) ==> CanWait(q, k, n + 1))
  {
    var r := Get(q).0;
    var m := Moved(q, k);
    assert r.events == Removed(q.events, Next(q));
    assert r.events[m] == q.events[k];
    if CanWait(r, m, n) {
      var calls :| Gets(calls) >= n && !Delivered(r, m, r.events[m], calls);
      hide Get, QueueOk, Next;
      assert ([GetCall] + calls)[1..] == calls;
      assert Gets([GetCall] + calls) >= n + 1;
      assert !Delivered(q, k, q.events[k], [GetCall] + calls);
    }
  }

  lemma WaitsLonger(q: Queue, k: nat, n: nat)
    requires QueueOk(q) && k < |q.events| && CanWait(q, k, n + 1)
    ensures CanWait(q, k, n)
  {
  }

  predicate NoneUrgent(events: seq<Event>) {
    forall j :: 0 <= j < |events| ==> events[j].priority > SHARED_RESOURCE
  }

  /** A level event of priority CONFIG gets in whenever a MEASUREMENT event would: it replaces one. */
  lemma ConfigGetsIn(q: Queue, k: nat) returns (m: Event, c: Event)
    requires QueueOk(q) && k < |q.events| < q.config.capacity && NoneUrgent(q.events) && q.events[k].delivery != Level
    ensures var p := Post(q, m).0;
      QueueOk(p) && var r := Post(p, c).0;
      && QueueOk(r) && NoneUrgent(r.events) && k < |r.events| && r.events[k] == q.events[k]
      && r.streak == q.streak && r.config == q.config
      && exists j :: 0 <= j < |r.events| && r.events[j].priority == CONFIG
  {
    m := Event(0, 0, MEASUREMENT, Level, 0, 0, 0, 0, []);
    c := m.(priority := CONFIG);
    var p := Post(q, m).0;
    var at := CoalesceTarget(q.events, m, 0);
    assert p.events == if at < |q.events| then q.events[at := m] else q.events + [m];
    assert SameLevel(p.events[at], c);
    assert forall j :: 0 <= j < at ==> p.events[j] == q.events[j];
    assert CoalesceTarget(p.events, c, 0) == at;
    var r := Post(p, c).0;
    assert r.events == p.events[at := c];
    assert r.events[at].priority == CONFIG;
  }

  /** CONFIG events keep the fairness counter from reaching its limit. */
  lemma {:induction false} CalmWaits(q: Queue, k: nat, n: nat)
    requires QueueOk(q) && k < |q.events| < q.config.capacity && q.events[k].delivery != Level
    requires q.events[k].priority > CONFIG && NoneUrgent(q.events) && q.streak < FAIRNESS
    ensures CanWait(q, k, n)
    decreases n
  {
    if n == 0 {
      assert Gets([]) >= 0 && !Delivered(q, k, q.events[k], []);
    } else {
      var m, c := ConfigGetsIn(q, k);
      WaitsAfterPost(q, k, m, n);
      var p := Post(q, m).0;
      PostLeavesPlace(q, k, m);
      WaitsAfterPost(p, k, c, n);
      var r := Post(p, c).0;
      assert Next(r) != k && r.events[Next(r)].priority == CONFIG by { hide Post; }
      WaitsAfterGet(r, k, n - 1);
      var t := Get(r).0;
      assert t.streak == 0 && NoneUrgent(t.events) && |t.events| < t.config.capacity by { hide Post; }
      hide Post, Get, Next;
      CalmWaits(t, Moved(r, k), n - 1);
    }
  }

  /** The same with a full queue, as long as another event is taken first. */
  lemma QuietWaits(q: Queue, k: nat, n: nat)
    requires QueueOk(q) && k < |q.events| && q.events[k].delivery != Level
    requires q.events[k].priority > CONFIG && NoneUrgent(q.events) && q.streak < FAIRNESS
    requires |q.events| < q.config.capacity || Next(q) != k
    ensures CanWait(q, k, n)
  {
    if |q.events| < q.config.capacity {
      CalmWaits(q, k, n);
    } else {
      WaitsAfterGet(q, k, n);
      var t := Get(q).0;
      assert t.streak == 0 && NoneUrgent(t.events);
      CalmWaits(t, Moved(q, k), n);
      WaitsLonger(q, k, n);
    }
  }

  /** Too few urgent events to use up the fairness counter are taken first. */
  lemma {:induction false} DrainWaits(q: Queue, k: nat, n: nat)
    requires QueueOk(q) && k < |q.events| && q.events[k].delivery != Level && q.events[k].priority > CONFIG
    requires forall j :: 0 <= j < |q.events| && q.events[j].delivery == Level ==> q.events[j].priority == CONFIG
    requires q.streak + Urgent(q.events) < FAIRNESS
    requires |q.events| < q.config.capacity || exists j :: 0 <= j < |q.events| && j != k && Outranks(q.events, j, k)
    ensures CanWait(q, k, n)
    decreases Urgent(q.events)
  {
    if Urgent(q.events) == 0 {
      NothingUrgent(q.events);
      QuietWaits(q, k, n);
    } else {
      var u := UrgentIsThere(q.events);
      var at := Next(q);
      assert at != k && q.events[at].priority <= SHARED_RESOURCE && q.events[at].delivery != Level;
      UrgentWithout(q.events, at, CRITICAL);
      UrgentOne(q.events[at], CRITICAL);
      WaitsAfterGet(q, k, n);
      var t := Get(q).0;
      assert t.streak == q.streak + 1 && t.events == Removed(q.events, at) && t.config == q.config;
      hide Get, Next;
      DrainWaits(t, Moved(q, k), n);
      WaitsLonger(q, k, n);
    }
  }

  /** Level events that do not have priority CONFIG. */
  function OtherLevels(events: seq<Event>): set<nat> {
    set j | 0 <= j < |events| && events[j].delivery == Level && events[j].priority != CONFIG
  }

  /** A waiting level event can be given priority CONFIG without room. */
  lemma Demoted(q: Queue, j: nat)
    requires QueueOk(q) && LevelsDistinct(q.events) && j < |q.events| && q.events[j].delivery == Level
    ensures var e := q.events[j].(priority := CONFIG); Post(q, e).0 == q.(events := q.events[j := e])
    ensures var e := q.events[j].(priority := CONFIG); LevelsDistinct(q.events[j := e]) && Urgent(q.events[j := e]) == Urgent(q.events)
    ensures var e := q.events[j].(priority := CONFIG); OtherLevels(q.events[j := e]) == OtherLevels(q.events) - {j}
  {
    var e := q.events[j].(priority := CONFIG);
    assert forall i :: 0 <= i < j ==> !SameLevel(q.events[i], q.events[j]);
    assert SameLevel(q.events[j], e);
    assert CoalesceTarget(q.events, e, 0) == j;
    UrgentReplaced(q.events, j, e, CRITICAL);
  }

  lemma {:induction false} LowCanWait(q: Queue, k: nat, n: nat)
    requires QueueOk(q) && k < |q.events| && q.events[k].delivery != Level && q.events[k].priority > CONFIG
    requires LevelsDistinct(q.events) && q.streak + Urgent(q.events) < FAIRNESS && !Stuck(q, k)
    ensures CanWait(q, k, n)
    decreases |OtherLevels(q.events)|
  {
    if OtherLevels(q.events) == {} {
      assert forall j :: 0 <= j < |q.events| && q.events[j].delivery == Level ==> j !in OtherLevels(q.events);
      if |q.events| == q.config.capacity {
        var j :| 0 <= j < |q.events| && j != k && (q.events[j].delivery == Level || Outranks(q.events, j, k));
        assert Outranks(q.events, j, k);
      }
      DrainWaits(q, k, n);
    } else {
      var j :| j in OtherLevels(q.events);
      Demoted(q, j);
      var e := q.events[j].(priority := CONFIG);
      WaitsAfterPost(q, k, e, n);
      var p := Post(q, e).0;
      assert p.events == q.events[j := e] && p.events[j].delivery == Level && j != k;
      hide Post;
      assert OtherLevels(p.events) < OtherLevels(q.events);
      Smaller(OtherLevels(p.events), OtherLevels(q.events));
      LowCanWait(p, k, n);
    }
  }

  lemma Smaller<T>(a: set<T>, b: set<T>)
    requires a < b
    ensures |a| < |b|
  {
    assert b == a + (b - a) && b - a != {};
  }

  // ---------- Bounds ----------

  /** Nothing gets in, and the next dequeue takes the event. */
  lemma {:induction false} StuckIsTaken(q: Queue, k: nat, calls: seq<Call>)
    requires QueueOk(q) && k < |q.events| && q.events[k].delivery != Level && Stuck(q, k)
    requires k == 0 || q.streak < FAIRNESS
    requires Gets(calls) >= 1
    ensures Delivered(q, k, q.events[k], calls)
    decreases |calls|
  {
    match calls[0]
    case PostCall(other) =>
      var p := Post(q, other).0;
      assert CoalesceTarget(q.events, other, 0) == |q.events|;
      assert p.events == q.events && p.config == q.config && p.streak == q.streak;
      StuckIsTaken(p, k, calls[1..]);
    case GetCall =>
      assert Next(q) == k;
  }

  function Behind(q: Queue, k: nat): seq<Event>
    requires k < |q.events|
  {
    q.events[k + 1..]
  }

  lemma PostKeepsBehind(q: Queue, k: nat, other: Event)
    requires QueueOk(q) && k < |q.events| && q.events[k].delivery != Level
    ensures var r := Post(q, other).0;
      QueueOk(r) && k < |r.events| && r.events[k] == q.events[k] && r.streak == q.streak
      && Urgent(Behind(r, k)) >= Urgent(Behind(q, k))
  {
    PostLeavesPlace(q, k, other);
    PostShapes(q, other);
    var (r, at) := (Post(q, other).0, CoalesceTarget(q.events, other, 0));
    hide Post, UrgentFrom, CoalesceTarget;
    if r.events == q.events + [other] {
      AppendedBehind(q.events, k, other);
    } else if r.events != q.events {
      ReplacedBehind(q.events, k, at, other);
    }
  }

  lemma PostShapes(q: Queue, other: Event)
    requires QueueOk(q)
    ensures var (r, at) := (Post(q, other).0, CoalesceTarget(q.events, other, 0));
      || r.events == q.events || r.events == q.events + [other]
      || (at < |q.events| && q.events[at].delivery == Level == other.delivery && r.events == q.events[at := other])
  {
  }

  lemma AppendedBehind(events: seq<Event>, k: nat, other: Event)
    requires k < |events|
    ensures Urgent((events + [other])[k + 1..]) >= Urgent(events[k + 1..])
  {
    assert (events + [other])[k + 1..] == events[k + 1..] + [other];
    UrgentAppend(events[k + 1..], [other], CRITICAL);
  }

  lemma ReplacedBehind(events: seq<Event>, k: nat, at: nat, other: Event)
    requires k < |events| && at < |events| && at != k && events[at].delivery == Level == other.delivery
    ensures Urgent(events[at := other][k + 1..]) == Urgent(events[k + 1..])
  {
    var b := events[k + 1..];
    if at < k {
      assert events[at := other][k + 1..] == b;
    } else {
      assert events[at := other][k + 1..] == b[at - k - 1 := other];
      UrgentReplaced(b, at - k - 1, other, CRITICAL);
    }
  }

  /** What a dequeue of another event leaves behind. */
  lemma GetKeepsBehind(q: Queue, k: nat, least: nat)
    requires QueueOk(q) && k < |q.events| && Next(q) != k
    ensures var (r, m) := (Get(q).0, Moved(q, k));
      && m < |r.events| && r.events[m] == q.events[k] && r.config == q.config && |r.events| < |q.events|
      && r.events[..m] == (if Next(q) < k then Removed(q.events[..k], Next(q)) else q.events[..k])
      && UrgentFrom(Behind(r, m), least) == UrgentFrom(Behind(q, k), least)
           - (if Next(q) > k then UrgentFrom([q.events[Next(q)]], least) else 0)
  {
    hide *;
    GetRemoves(q);
    RemovedBehind(q.events, k, Next(q), least);
    MovedIs(q, k);
    BehindIs(q, k);
    BehindIs(Get(q).0, Moved(q, k));
  }

  lemma GetRemoves(q: Queue)
    requires q.events != []
    ensures Get(q).0.events == Removed(q.events, Next(q)) && Get(q).0.config == q.config
  {
    hide Next, Removed;
  }

  lemma MovedIs(q: Queue, k: nat)
    requires q.events != []
    ensures Moved(q, k) == (if Next(q) < k then k - 1 else k)
  {
  }

  lemma BehindIs(q: Queue, k: nat)
    requires k < |q.events|
    ensures Behind(q, k) == q.events[k + 1..]
  {
  }

  lemma RemovedBehind(events: seq<Event>, k: nat, at: nat, least: nat)
    requires k < |events| && at < |events| && at != k
    ensures var (r, m) := (Removed(events, at), if at < k then k - 1 else k);
      && r[m] == events[k] && r[..m] == (if at < k then Removed(events[..k], at) else events[..k])
      && UrgentFrom(r[m + 1..], least)
         == UrgentFrom(events[k + 1..], least) - (if at > k then UrgentFrom([events[at]], least) else 0)
  {
    RemovedSides(events, k, at);
    hide Removed, UrgentFrom;
    if at > k {
      UrgentWithout(events[k + 1..], at - k - 1, least);
      assert events[k + 1..][at - k - 1] == events[at];
    }
  }

  lemma RemovedSides(events: seq<Event>, k: nat, at: nat)
    requires k < |events| && at < |events| && at != k
    ensures var (r, m) := (Removed(events, at), if at < k then k - 1 else k);
      && r[m] == events[k]
      && r[..m] == (if at < k then Removed(events[..k], at) else events[..k])
      && r[m + 1..] == (if at < k then events[k + 1..] else Removed(events[k + 1..], at - k - 1))
  {
  }

  /** The urgent events behind it use up the fairness counter once for each event ahead and once more, and then it is
      the oldest. */
  lemma {:induction false} PushedIsTaken(q: Queue, k: nat, calls: seq<Call>)
    requires QueueOk(q) && k < |q.events| && q.events[k].delivery != Level
    requires q.streak + Urgent(Behind(q, k)) >= FAIRNESS * (k + 1)
    requires Gets(calls) >= 5 * (k + 1) - q.streak
    ensures Delivered(q, k, q.events[k], calls)
    decreases |calls|
  {
    assert q.streak <= 4 && calls != [];
    assert Gets(calls[1..]) == Gets(calls) - (if calls[0].GetCall? then 1 else 0);
    match calls[0]
    case PostCall(other) =>
      PostKeepsBehind(q, k, other);
      hide Post, QueueOk, Gets, Urgent;
      PushedIsTaken(Post(q, other).0, k, calls[1..]);
    case GetCall =>
      if Next(q) != k {
        GetKeepsBehind(q, k, CRITICAL);
        UrgentTaken(q, k);
        var (t, m) := (Get(q).0, Moved(q, k));
        hide Get, QueueOk, Gets, Urgent, Next;
        PushedIsTaken(t, m, calls[1..]);
      }
  }

  lemma UrgentTaken(q: Queue, k: nat)
    requires QueueOk(q) && k < |q.events| && Next(q) != k
    requires q.streak < FAIRNESS ==> Urgent(Behind(q, k)) > 0
    ensures QueueOk(Get(q).0) && UrgentFrom([q.events[Next(q)]], CRITICAL) <= 1
    ensures q.streak < FAIRNESS ==> Get(q).0.streak == q.streak + 1
    ensures q.streak == FAIRNESS ==> Next(q) == 0 && Get(q).0.streak == 0
  {
    UrgentOne(q.events[Next(q)], CRITICAL);
    if q.streak < FAIRNESS {
      var u := UrgentIsThere(Behind(q, k));
      assert Behind(q, k)[u] == q.events[k + 1 + u];
    }
    hide Urgent;
  }

  lemma WaitingHasNoBound(q: Queue, k: nat)
    requires QueueOk(q) && k < |q.events| && forall n: nat :: CanWait(q, k, n)
    ensures !HasBound(q, k)
  {
    forall n: nat ensures !Enough(q, k, n) {
      assert CanWait(q, k, n);
    }
  }

  /** While too few urgent events wait to use up the fairness counter, a waiting event that is not coalesced has a bound
      exactly if its priority is CONFIG or better, or the queue is stuck in front of it. */
  lemma BoundedIff(q: Queue, k: nat)
    requires QueueOk(q) && LevelsDistinct(q.events) && k < |q.events| && q.events[k].delivery != Level
    requires q.streak + Urgent(q.events) < FAIRNESS
    ensures HasBound(q, k) <==> q.events[k].priority <= CONFIG || Stuck(q, k)
  {
    if q.events[k].priority <= CONFIG {
      InTimeIsBound(q, k);
    } else if Stuck(q, k) {
      forall calls | Gets(calls) >= 1 ensures Delivered(q, k, q.events[k], calls) {
        StuckIsTaken(q, k, calls);
      }
      assert Enough(q, k, 1);
    } else {
      forall n: nat ensures CanWait(q, k, n) {
        LowCanWait(q, k, n);
      }
      WaitingHasNoBound(q, k);
    }
  }

  lemma InTimeIsBound(q: Queue, k: nat)
    requires QueueOk(q) && k < |q.events| && q.events[k].delivery != Level && q.events[k].priority <= CONFIG
    ensures HasBound(q, k)
  {
    forall calls | Gets(calls) >= 5 * (k + 1) ensures Delivered(q, k, q.events[k], calls) {
      DeliveredInTime(q, k, calls);
    }
    assert Enough(q, k, 5 * (k + 1));
  }

  // ---------- Events behind older ones ----------

  /** No critical event is ahead, fewer than four urgent ones behind have to wait for one ahead, and if any is ahead there is
      room for a critical one to be posted. */
  ghost predicate CanBeEaten(q: Queue, k: nat)
    requires k < |q.events|
  {
    var most := MostUrgent(q.events[..k]);
    && most > CRITICAL && UrgentFrom(Behind(q, k), most) < FAIRNESS
    && (|q.events| < q.config.capacity || most > SHARED_RESOURCE)
  }

  lemma {:induction false} MostUrgentWithout(events: seq<Event>, at: nat)
    requires at < |events|
    ensures MostUrgent(events) <= MostUrgent(Removed(events, at))
    decreases |events|
  {
    MostUrgentIsLeast(events);
    var rest := Removed(events, at);
    MostUrgentIsLeast(rest);
    RemovedEntries(events, at);
    hide Removed, MostUrgent;
  }

  /** The event that eats a dequeue. */
  const EATER := Event(0, 0, CRITICAL, Edge, 0, 0, 0, 0, [])

  /** A critical event that is posted and taken at once only moves the fairness counter. */
  lemma Eats(q: Queue)
    requires QueueOk(q) && |q.events| < q.config.capacity && q.streak < FAIRNESS
    requires forall j :: 0 <= j < |q.events| ==> q.events[j].priority > CRITICAL
    ensures var r := Post(q, EATER).0;
      QueueOk(r) && r.events == q.events + [EATER] && Next(r) == |q.events| && Get(r).0 == q.(streak := q.streak + 1)
  {
    var r := Post(q, EATER).0;
    assert r.events[|q.events|].priority == CRITICAL;
    assert Removed(r.events, |q.events|) == q.events;
  }

  lemma EatenOnce(q: Queue, k: nat, n: nat)
    requires QueueOk(q) && k < |q.events| < q.config.capacity && q.events[k].delivery != Level && q.streak < FAIRNESS
    requires forall j :: 0 <= j < |q.events| ==> q.events[j].priority > CRITICAL
    requires CanWait(q.(streak := q.streak + 1), k, n)
    ensures CanWait(q, k, n)
  {
    Eats(q);
    var r := Post(q, EATER).0;
    hide Post;
    WaitsAfterGet(r, k, n);
    assert r.events[k] == q.events[k];
    WaitsLonger(r, k, n);
    WaitsAfterPost(q, k, EATER, n);
  }

  /** The older events are taken as the oldest ones, by the fairness rule, while the urgent events behind and critical
      ones posted for the purpose are taken in between. */
  lemma {:induction false} EatenWaits(q: Queue, k: nat, n: nat)
    requires QueueOk(q) && k < |q.events| && q.events[k].delivery != Level && q.events[k].priority > CONFIG
    requires LevelsDistinct(q.events) && !(Stuck(q, k) && q.streak < FAIRNESS) && CanBeEaten(q, k)
    requires forall j :: 0 <= j < |q.events| && q.events[j].delivery == Level ==> q.events[j].priority == CONFIG
    requires q.streak + Urgent(Behind(q, k)) < FAIRNESS * (k + 1)
    ensures CanWait(q, k, n)
    decreases k, FAIRNESS - q.streak
  {
    assert q.streak <= FAIRNESS;
    hide *;
    if q.streak + Urgent(q.events) < FAIRNESS {
      LowCanWait(q, k, n);
    } else if q.streak == FAIRNESS || Next(q) > k {
      TakesOn(q, k);
      WaitsAfterGet(q, k, n);
      EatenWaits(Get(q).0, Moved(q, k), n);
      WaitsLonger(q, k, n);
    } else {
      BlockedNow(q, k);
      EatenWaits(q.(streak := q.streak + 1), k, n);
      EatenOnce(q, k, n);
    }
  }

  /** A dequeue by the fairness rule, or of an urgent event behind. */
  lemma TakesOn(q: Queue, k: nat)
    requires QueueOk(q) && k < |q.events| && q.events[k].delivery != Level && q.events[k].priority > CONFIG
    requires LevelsDistinct(q.events) && CanBeEaten(q, k) && q.streak + Urgent(q.events) >= FAIRNESS
    requires forall j :: 0 <= j < |q.events| && q.events[j].delivery == Level ==> q.events[j].priority == CONFIG
    requires q.streak + Urgent(Behind(q, k)) < FAIRNESS * (k + 1)
    requires q.streak == FAIRNESS || Next(q) > k
    ensures Next(q) != k
    ensures var (t, m) := (Get(q).0, Moved(q, k));
      && QueueOk(t) && m < |t.events| && t.events[m] == q.events[k] && |t.events| < t.config.capacity
      && LevelsDistinct(t.events) && CanBeEaten(t, m) && t.streak + Urgent(Behind(t, m)) < FAIRNESS * (m + 1)
      && !Stuck(t, m)
      && (forall j :: 0 <= j < |t.events| && t.events[j].delivery == Level ==> t.events[j].priority == CONFIG)
      && (m < k || (m == k && FAIRNESS - t.streak < FAIRNESS - q.streak))
  {
    NextWhenTired(q);
    GetRemoves(q);
    GetMoves(q);
    var (t, m, most) := (Get(q).0, Moved(q, k), MostUrgent(q.events[..k]));
    assert q.streak == FAIRNESS ==> k > 0;
    if q.streak < FAIRNESS {
      UrgentNext(q);
      UrgentOne(q.events[Next(q)], CRITICAL);
    }
    EatenIs(q, k);
    hide *;
    MovedIs(q, k);
    KeepsLevels(q.events, Next(q));
    GetKeepsBehind(q, k, most);
    GetKeepsBehind(q, k, CRITICAL);
    UrgentIs(Behind(q, k));
    UrgentIs(Behind(t, m));
    if q.streak == FAIRNESS {
      MostUrgentWithout(q.events[..k], 0);
      FewerFrom(Behind(t, m), most, MostUrgent(t.events[..m]));
    }
    EatenIs(t, m);
    RoomIsNotStuck(t, m);
  }

  lemma NextWhenTired(q: Queue)
    requires q.events != []
    ensures q.streak >= FAIRNESS ==> Next(q) == 0
  {
  }

  lemma GetMoves(q: Queue)
    requires QueueOk(q) && q.events != []
    ensures QueueOk(Get(q).0) && (q.streak >= FAIRNESS ==> Get(q).0.streak == 0)
  {
    hide Next;
  }

  lemma EatenIs(q: Queue, k: nat)
    requires k < |q.events|
    ensures var most := MostUrgent(q.events[..k]);
      CanBeEaten(q, k) <==>
        && most > CRITICAL && UrgentFrom(Behind(q, k), most) < FAIRNESS
        && (|q.events| < q.config.capacity || most > SHARED_RESOURCE)
  {
    hide MostUrgent, UrgentFrom, Behind;
  }

  lemma UrgentIs(events: seq<Event>)
    ensures Urgent(events) == UrgentFrom(events, CRITICAL)
  {
    hide UrgentFrom;
  }

  lemma RoomIsNotStuck(q: Queue, k: nat)
    requires k < |q.events| < q.config.capacity
    ensures !Stuck(q, k)
  {
  }

  lemma KeepsLevels(events: seq<Event>, at: nat)
    requires at < |events| && LevelsDistinct(events)
    requires forall j :: 0 <= j < |events| && events[j].delivery == Level ==> events[j].priority == CONFIG
    ensures var r := Removed(events, at);
      LevelsDistinct(r) && forall j :: 0 <= j < |r| && r[j].delivery == Level ==> r[j].priority == CONFIG
  {
    RemovedEntries(events, at);
    hide Removed, SameLevel;
  }

  lemma UrgentNext(q: Queue)
    requires QueueOk(q) && q.streak < FAIRNESS && Urgent(q.events) > 0
    requires forall j :: 0 <= j < |q.events| && q.events[j].delivery == Level ==> q.events[j].priority == CONFIG
    ensures q.events != []
    ensures q.events[Next(q)].priority <= SHARED_RESOURCE && q.events[Next(q)].delivery != Level
    ensures Get(q).0.streak == q.streak + 1
  {
    var u := UrgentIsThere(q.events);
    hide Urgent;
  }

  /** An urgent event ahead comes next: all urgent ones behind are no more urgent. */
  lemma BlockedNow(q: Queue, k: nat)
    requires QueueOk(q) && k < |q.events| && q.events[k].delivery != Level && q.events[k].priority > CONFIG
    requires CanBeEaten(q, k) && q.streak < FAIRNESS && q.streak + Urgent(q.events) >= FAIRNESS && Next(q) <= k
    requires forall j :: 0 <= j < |q.events| && q.events[j].delivery == Level ==> q.events[j].priority == CONFIG
    ensures k > 0 && |q.events| < q.config.capacity
    ensures var r := q.(streak := q.streak + 1);
      && QueueOk(r) && !Stuck(r, k) && CanBeEaten(r, k) && r.streak + Urgent(Behind(r, k)) < FAIRNESS * (k + 1)
    ensures forall j :: 0 <= j < |q.events| ==> q.events[j].priority > CRITICAL
  {
    UrgentNext(q);
    var (at, ahead) := (Next(q), q.events[..k]);
    assert at < k && ahead[at] == q.events[at];
    assert forall j :: 0 <= j < |q.events| ==> q.events[at].priority <= q.events[j].priority;
    hide Next, Urgent, MostUrgent;
    MostUrgentIsLeast(ahead);
    BlockedBehind(q, k, MostUrgent(ahead));
    hide UrgentFrom;
  }

  lemma BlockedBehind(q: Queue, k: nat, most: nat)
    requires k < |q.events| && forall j :: 0 <= j < |q.events| ==> most <= q.events[j].priority
    ensures Urgent(Behind(q, k)) == UrgentFrom(Behind(q, k), most)
  {
    assert forall j :: 0 <= j < |Behind(q, k)| ==> Behind(q, k)[j] == q.events[k + 1 + j];
    AllFrom(Behind(q, k), most);
    hide Urgent, UrgentFrom;
  }

  /** Level events are given priority CONFIG first. */
  lemma {:induction false} BehindCanWait(q: Queue, k: nat, n: nat)
    requires QueueOk(q) && k < |q.events| && q.events[k].delivery != Level && q.events[k].priority > CONFIG
    requires LevelsDistinct(q.events) && !(Stuck(q, k) && q.streak < FAIRNESS) && CanBeEaten(q, k)
    requires q.streak + Urgent(Behind(q, k)) < FAIRNESS * (k + 1)
    ensures CanWait(q, k, n)
    decreases |OtherLevels(q.events)|
  {
    if OtherLevels(q.events) == {} {
      assert forall j :: 0 <= j < |q.events| && q.events[j].delivery == Level ==> j !in OtherLevels(q.events);
      hide CanBeEaten, Urgent, Stuck;
      EatenWaits(q, k, n);
    } else {
      var j :| j in OtherLevels(q.events);
      Demoted(q, j);
      var e := q.events[j].(priority := CONFIG);
      WaitsAfterPost(q, k, e, n);
      var p := Post(q, e).0;
      assert p.events == q.events[j := e] && p.events[j].delivery == Level && j != k;
      DemotedSides(q, k, j, e);
      hide Post, CanBeEaten, Urgent;
      assert !Stuck(p, k);
      assert OtherLevels(p.events) < OtherLevels(q.events);
      Smaller(OtherLevels(p.events), OtherLevels(q.events));
      BehindCanWait(p, k, n);
    }
  }

  lemma DemotedSides(q: Queue, k: nat, j: nat, e: Event)
    requires k < |q.events| && j < |q.events| && j != k && q.events[j].delivery == Level && e.delivery == Level
    requires CanBeEaten(q, k)
    ensures var p := q.(events := q.events[j := e]);
      CanBeEaten(p, k) && Urgent(Behind(p, k)) == Urgent(Behind(q, k))
  {
    var p := q.(events := q.events[j := e]);
    var (ahead, b) := (q.events[..k], Behind(q, k));
    if j < k {
      assert p.events[..k] == ahead[j := e] && Behind(p, k) == b;
      LevelUnseen(ahead, j, e);
    } else {
      assert p.events[..k] == ahead && Behind(p, k) == b[j - k - 1 := e];
      UrgentReplaced(b, j - k - 1, e, CRITICAL);
      UrgentReplaced(b, j - k - 1, e, MostUrgent(ahead));
    }
  }

  lemma {:induction false} LevelUnseen(events: seq<Event>, j: nat, e: Event)
    requires j < |events| && events[j].delivery == Level && e.delivery == Level
    ensures MostUrgent(events[j := e]) == MostUrgent(events)
    decreases |events|
  {
    var last := |events| - 1;
    if j < last {
      assert events[j := e][..last] == events[..last][j := e];
      LevelUnseen(events[..last], j, e);
    } else {
      assert events[j := e][..last] == events[..last];
    }
  }

  /** If enough urgent events wait behind it, any event has a bound, whatever waits ahead. */
  lemma PushedIsBound(q: Queue, k: nat)
    requires QueueOk(q) && k < |q.events| && q.events[k].delivery != Level
    requires q.streak + Urgent(Behind(q, k)) >= FAIRNESS * (k + 1)
    ensures q.streak <= FAIRNESS && Enough(q, k, 5 * (k + 1) - q.streak) && HasBound(q, k)
  {
    forall calls | Gets(calls) >= 5 * (k + 1) - q.streak
      ensures Delivered(q, k, q.events[k], calls)
    {
      PushedIsTaken(q, k, calls);
    }
    var n: nat := 5 * (k + 1) - q.streak;
    assert Enough(q, k, n);
  }

  /** An event with k older ones: if no critical event is ahead, fewer than four urgent ones behind have to wait for one
      ahead, and there is room if any urgent one is ahead, then it has a bound exactly if its priority is CONFIG or better,
      or the queue is stuck, or the urgent events behind use up the fairness counter k + 1 times. */
  lemma BehindBoundedIff(q: Queue, k: nat)
    requires QueueOk(q) && LevelsDistinct(q.events) && k < |q.events| && q.events[k].delivery != Level && CanBeEaten(q, k)
    ensures HasBound(q, k) <==>
      || q.events[k].priority <= CONFIG || (Stuck(q, k) && q.streak < FAIRNESS)
      || q.streak + Urgent(Behind(q, k)) >= FAIRNESS * (k + 1)
  {
    if q.events[k].priority <= CONFIG {
      InTimeIsBound(q, k);
    } else if q.streak + Urgent(Behind(q, k)) >= FAIRNESS * (k + 1) {
      PushedIsBound(q, k);
    } else if Stuck(q, k) && q.streak < FAIRNESS {
      forall calls | Gets(calls) >= 1 ensures Delivered(q, k, q.events[k], calls) {
        StuckIsTaken(q, k, calls);
      }
      assert Enough(q, k, 1);
    } else {
      forall n: nat ensures CanWait(q, k, n) {
        BehindCanWait(q, k, n);
      }
      WaitingHasNoBound(q, k);
    }
  }

  /** The oldest waiting event, if it is not coalesced, in every state. */
  lemma HeadBoundedIff(q: Queue)
    requires QueueOk(q) && LevelsDistinct(q.events) && q.events != [] && q.events[0].delivery != Level
    ensures HasBound(q, 0)
            <==> q.events[0].priority <= CONFIG || q.streak + Urgent(q.events) >= FAIRNESS || Stuck(q, 0)
  {
    HeadIsAhead(q);
    hide *;
    BehindBoundedIff(q, 0);
  }

  lemma HeadIsAhead(q: Queue)
    requires q.events != [] && q.events[0].delivery != Level
    ensures CanBeEaten(q, 0) && (q.events[0].priority > CONFIG ==> Urgent(q.events) == Urgent(Behind(q, 0)))
  {
    assert q.events[..0] == [];
    assert q.events == [q.events[0]] + Behind(q, 0);
    UrgentAppend([q.events[0]], Behind(q, 0), CRITICAL);
    UrgentOne(q.events[0], CRITICAL);
    NoneBeyond(Behind(q, 0), SHARED_RESOURCE + 1);
  }

  // ---------- BACKGROUND between CONFIG events ----------

  /** Some dequeue takes a CONFIG event. */
  predicate TakesConfig(q: Queue, calls: seq<Call>)
    requires QueueOk(q)
    decreases |calls|
  {
    && calls != []
    && match calls[0]
       case PostCall(other) => var p := Post(q, other).0; QueueOk(p) && TakesConfig(p, calls[1..])
       case GetCall =>
         var (r, taken) := Get(q);
         (taken.Some? && taken.value.priority == CONFIG) || (QueueOk(r) && TakesConfig(r, calls[1..]))
  }

  lemma GetApproachesUnlessConfig(q: Queue, k: nat)
    requires QueueOk(q) && k < |q.events| && q.events[k].priority <= BACKGROUND && q.events[Next(q)].priority != CONFIG
    ensures var r := Get(q).0;
      && QueueOk(r)
      && (Next(q) < k ==> k - 1 < |r.events| && r.events[k - 1] == q.events[k])
      && (Next(q) > k ==> k < |r.events| && r.events[k] == q.events[k] && r.streak > q.streak)
  {
  }

  /** Every event that is not coalesced is delivered within the same bound while no CONFIG event is taken. */
  lemma {:induction false} DeliveredUnlessConfig(q: Queue, k: nat, calls: seq<Call>)
    requires QueueOk(q) && k < |q.events| && q.events[k].delivery != Level && q.events[k].priority <= BACKGROUND
    requires Gets(calls) >= 5 * (k + 1) - q.streak && !TakesConfig(q, calls)
    ensures Delivered(q, k, q.events[k], calls)
    decreases |calls|
  {
    assert q.streak <= 4 && calls != [];
    assert Gets(calls[1..]) == Gets(calls) - (if calls[0].GetCall? then 1 else 0);
    match calls[0]
    case PostCall(other) =>
      PostLeavesPlace(q, k, other);
      hide QueueOk, Get, Post, Next, Gets;
      DeliveredUnlessConfig(Post(q, other).0, k, calls[1..]);
    case GetCall =>
      var r := Get(q).0;
      assert q.events[Next(q)].priority != CONFIG;
      GetApproachesUnlessConfig(q, k);
      hide QueueOk, Get, Post, Next, Gets;
      if Next(q) < k {
        DeliveredUnlessConfig(r, k - 1, calls[1..]);
      } else if Next(q) > k {
        DeliveredUnlessConfig(r, k, calls[1..]);
      }
  }
}
