/** The scheduled-action queue of linux_scheduled_action_queue.c: a binary heap, as a sequence. */
module ActionQueue {
  import opened Bits
  import opened StorageRecord

  const MAX_CAPACITY: nat := 64

  datatype Action = Action(
    due: uint64, class_: nat, resource: uint32, resourceGeneration: uint32, source: uint64, insertion: nat,
    operation: uint32, ownerGeneration: uint32)

  // ---------- The total order ----------

  /** action_lt: six keys, one after the other. */
  predicate Less(a: Action, b: Action) {
    if a.due != b.due then a.due < b.due
    else if a.class_ != b.class_ then a.class_ < b.class_
    else if a.resource != b.resource then a.resource < b.resource
    else if a.resourceGeneration != b.resourceGeneration then a.resourceGeneration < b.resourceGeneration
    else if a.source != b.source then a.source < b.source
    else a.insertion < b.insertion
  }

  predicate AtMost(a: Action, b: Action) {
    !Less(b, a)
  }

  lemma AtMostTransitive(a: Action, b: Action, c: Action)
    requires AtMost(a, b) && AtMost(b, c)
    ensures AtMost(a, c)
  {
  }

  // ---------- Heaps ----------

  function Parent(i: nat): nat
    requires i > 0
  {
    (i - 1) / 2
  }

  /** Every entry but the root is at least its parent. */
  predicate IsHeap(s: seq<Action>) {
    forall i :: 0 < i < |s| ==> AtMost(s[Parent(i)], s[i])
  }

  lemma {:induction false} RootIsLeast(s: seq<Action>, i: nat)
    requires IsHeap(s) && i < |s|
    ensures AtMost(s[0], s[i])
    decreases i
  {
    if i > 0 {
      RootIsLeast(s, Parent(i));
      AtMostTransitive(s[0], s[Parent(i)], s[i]);
    }
  }

  function Swapped<T>(s: seq<T>, i: nat, j: nat): (r: seq<T>)
    requires i < |s| && j < |s|
    ensures |r| == |s|
  {
    s[i := s[j]][j := s[i]]
  }

  lemma SwappedBag<T>(s: seq<T>, i: nat, j: nat)
    requires i < |s| && j < |s|
    ensures multiset(Swapped(s, i, j)) == multiset(s)
  {
  }

  /** heap_sift_up. */
  function SiftUp(s: seq<Action>, i: nat): (r: seq<Action>)
    requires i < |s|
    ensures |r| == |s|
    decreases i
  {
    if i > 0 && Less(s[i], s[Parent(i)]) then SiftUp(Swapped(s, i, Parent(i)), Parent(i)) else s
  }

  /** The smallest of an entry and its two children. */
  function SmallestChild(s: seq<Action>, i: nat): (r: nat)
    requires i < |s|
    ensures r < |s| && (r == i || r == 2 * i + 1 || r == 2 * i + 2)
  {
    var left := if 2 * i + 1 < |s| && Less(s[2 * i + 1], s[i]) then 2 * i + 1 else i;
    if 2 * i + 2 < |s| && Less(s[2 * i + 2], s[left]) then 2 * i + 2 else left
  }

  /** heap_sift_down. */
  function SiftDown(s: seq<Action>, i: nat): (r: seq<Action>)
    requires i < |s|
    ensures |r| == |s|
    decreases |s| - i
  {
    var child := SmallestChild(s, i);
    if child == i then s else SiftDown(Swapped(s, i, child), child)
  }

  // ---------- Operations ----------

  datatype Queue = Queue(heap: seq<Action>, nextInsertion: nat)

  /** action_queue_schedule. */
  function Schedule(q: Queue, a: Action): (Queue, bool) {
    if |q.heap| >= MAX_CAPACITY then (q, false)
    else
      var s := q.heap + [a.(insertion := q.nextInsertion)];
      (Queue(SiftUp(s, |q.heap|), q.nextInsertion + 1), true)
  }

  /** The heap without its entry i: the last entry takes its place and is sifted down. */
  function TakenOut(s: seq<Action>, i: nat): (r: seq<Action>)
    requires i < |s|
    ensures |r| == |s| - 1
  {
    var last := |s| - 1;
    var t := s[i := s[last]][..last];
    if i < last then SiftDown(t, i) else t
  }

  /** action_queue_dispatch_due: what comes out, and what stays. */
  function Dispatch(heap: seq<Action>, now: uint64, limit: nat): (seq<Action>, seq<Action>)
    decreases |heap|
  {
    if heap == [] || limit == 0 || heap[0].due > now then ([], heap)
    else
      var (out, rest) := Dispatch(TakenOut(heap, 0), now, limit - 1);
      ([heap[0]] + out, rest)
  }

  /** action_queue_cancel's scan. */
  function FindOperation(heap: seq<Action>, operation: uint32, i: nat): (r: nat)
    requires i <= |heap|
    ensures i <= r <= |heap| && (r < |heap| ==> heap[r].operation == operation)
    decreases |heap| - i
  {
    if i == |heap| || heap[i].operation == operation then i else FindOperation(heap, operation, i + 1)
  }

  function Cancel(q: Queue, operation: uint32, generation: uint32): (Queue, bool) {
    var i := FindOperation(q.heap, operation, 0);
    if i == |q.heap| || q.heap[i].ownerGeneration != generation then (q, false)
    else (q.(heap := TakenOut(q.heap, i)), true)
  }

  // ---------- Sifting ----------

  /** A heap but for the edge above i: i's parent is still at most i's children. */
  predicate HeapButUp(s: seq<Action>, i: nat) {
    && (forall j :: 0 < j < |s| && j != i ==> AtMost(s[Parent(j)], s[j]))
    && (forall j :: 0 < j < |s| && i > 0 && Parent(j) == i ==> AtMost(s[Parent(i)], s[j]))
  }

  lemma {:induction false} SiftUpHeaps(s: seq<Action>, i: nat)
    requires i < |s| && HeapButUp(s, i)
    ensures IsHeap(SiftUp(s, i)) && multiset(SiftUp(s, i)) == multiset(s)
    decreases i
  {
    if i > 0 && Less(s[i], s[Parent(i)]) {
      SwappedBag(s, i, Parent(i));
      SwapUp(s, i);
      SiftUpHeaps(Swapped(s, i, Parent(i)), Parent(i));
    }
  }

  lemma SwapUp(s: seq<Action>, i: nat)
    requires 0 < i < |s| && HeapButUp(s, i) && Less(s[i], s[Parent(i)])
    ensures HeapButUp(Swapped(s, i, Parent(i)), Parent(i))
  {
    var p := Parent(i);
    var t := Swapped(s, i, p);
    assert t[i] == s[p] && t[p] == s[i] && forall k :: 0 <= k < |s| && k != i && k != p ==> t[k] == s[k];
    forall j | 0 < j < |t| && j != p
      ensures AtMost(t[Parent(j)], t[j])
    {
      if j == i {
      } else if Parent(j) == i {
        assert t[Parent(j)] == s[p] && t[j] == s[j];
      } else if Parent(j) == p {
        assert AtMost(s[p], s[j]) && AtMost(s[i], s[p]);
        AtMostTransitive(s[i], s[p], s[j]);
      }
    }
    if p > 0 {
      forall j | 0 < j < |t| && Parent(j) == p
        ensures AtMost(t[Parent(p)], t[j])
      {
        assert AtMost(s[Parent(p)], s[p]);
        if j != i {
          AtMostTransitive(s[Parent(p)], s[p], s[j]);
        }
      }
    }
  }

  /** A heap but for the edges below i: i's children are at least i's parent. */
  predicate HeapButDown(s: seq<Action>, i: nat) {
    && (forall j :: 0 < j < |s| && Parent(j) != i ==> AtMost(s[Parent(j)], s[j]))
    && (forall j :: 0 < j < |s| && i > 0 && Parent(j) == i && i < |s| ==> AtMost(s[Parent(i)], s[j]))
  }

  lemma {:induction false} SiftDownHeaps(s: seq<Action>, i: nat)
    requires i < |s| && HeapButDown(s, i)
    ensures IsHeap(SiftDown(s, i)) && multiset(SiftDown(s, i)) == multiset(s)
    decreases |s| - i
  {
    var c := SmallestChild(s, i);
    if c != i {
      SwappedBag(s, i, c);
      SwapDown(s, i);
      SiftDownHeaps(Swapped(s, i, c), c);
    } else {
      forall j | 0 < j < |s| && Parent(j) == i
        ensures AtMost(s[i], s[j])
      {
        assert j == 2 * i + 1 || j == 2 * i + 2;
      }
    }
  }

  lemma SmallestIsLeast(s: seq<Action>, i: nat)
    requires i < |s|
    ensures var c := SmallestChild(s, i);
      AtMost(s[c], s[i]) && forall j :: 0 < j < |s| && Parent(j) == i ==> AtMost(s[c], s[j])
  {
    var c := SmallestChild(s, i);
    forall j | 0 < j < |s| && Parent(j) == i
      ensures AtMost(s[c], s[j])
    {
      assert j == 2 * i + 1 || j == 2 * i + 2;
    }
  }

  lemma SwapDown(s: seq<Action>, i: nat)
    requires i < |s| && HeapButDown(s, i) && SmallestChild(s, i) != i
    ensures HeapButDown(Swapped(s, i, SmallestChild(s, i)), SmallestChild(s, i))
  {
    var c := SmallestChild(s, i);
    var t := Swapped(s, i, c);
    SmallestIsLeast(s, i);
    assert Parent(c) == i && c > i;
    hide AtMost, SmallestChild, Swapped;
    assert t[i] == s[c] && t[c] == s[i] && forall k :: 0 <= k < |s| && k != i && k != c ==> t[k] == s[k];
    forall j | 0 < j < |t| && Parent(j) != c
      ensures AtMost(t[Parent(j)], t[j])
    {
      if Parent(j) == i {
        assert j == 2 * i + 1 || j == 2 * i + 2;
      } else if j == i {
        assert AtMost(s[Parent(i)], s[c]);
      }
    }
    forall j | 0 < j < |t| && Parent(j) == c
      ensures AtMost(t[i], t[j])
    {
      assert AtMost(s[c], s[j]);
    }
  }

  // ---------- Scheduling and dispatching refine a sorted multiset ----------

  /** A scheduled action joins the others, under its insertion number; a full queue changes nothing. */
  lemma ScheduleKeeps(q: Queue, a: Action)
    requires IsHeap(q.heap)
    ensures var (r, ok) := Schedule(q, a);
      && IsHeap(r.heap) && (ok <==> |q.heap| < MAX_CAPACITY) && (!ok ==> r == q)
      && (ok ==> multiset(r.heap) == multiset(q.heap) + multiset{a.(insertion := q.nextInsertion)}
                 && r.nextInsertion == q.nextInsertion + 1)
  {
    var s := q.heap + [a.(insertion := q.nextInsertion)];
    assert HeapButUp(s, |q.heap|);
    SiftUpHeaps(s, |q.heap|);
  }

  lemma ReplacedBag<T>(s: seq<T>, i: nat)
    requires i < |s|
    ensures multiset(s) == multiset(s[i := s[|s| - 1]][..|s| - 1]) + multiset{s[i]}
  {
    var last := |s| - 1;
    assert s == s[..last] + [s[last]];
    assert s[i := s[last]][..last] == if i < last then s[..last][i := s[last]] else s[..last];
  }

  lemma TakeRoot(s: seq<Action>)
    requires s != [] && IsHeap(s)
    ensures IsHeap(TakenOut(s, 0)) && multiset(s) == multiset(TakenOut(s, 0)) + multiset{s[0]}
  {
    var last := |s| - 1;
    var t := s[0 := s[last]][..last];
    ReplacedBag(s, 0);
    assert forall k :: 0 < k < last ==> t[k] == s[k];
    if last > 0 {
      assert HeapButDown(t, 0);
      SiftDownHeaps(t, 0);
    }
  }

  predicate Sorted(s: seq<Action>) {
    forall i, j :: 0 <= i < j < |s| ==> AtMost(s[i], s[j])
  }

  /** What comes out is the least due actions in order, what stays is a heap, nothing is lost or made up, and no due
      action stays behind unless the limit was reached. */
  predicate Dispatched(heap: seq<Action>, now: uint64, limit: nat, out: seq<Action>, rest: seq<Action>) {
    && IsHeap(rest) && multiset(out) + multiset(rest) == multiset(heap) && Sorted(out) && |out| <= limit
    && (forall a :: a in out ==> a.due <= now)
    && (forall a, b :: a in out && b in rest ==> AtMost(a, b))
    && (|out| < limit ==> forall b :: b in rest ==> b.due > now)
  }

  lemma {:induction false} DispatchRefines(heap: seq<Action>, now: uint64, limit: nat)
    requires IsHeap(heap)
    ensures var (out, rest) := Dispatch(heap, now, limit); Dispatched(heap, now, limit, out, rest)
    decreases |heap|
  {
    forall i | 0 <= i < |heap|
      ensures AtMost(heap[0], heap[i])
    {
      RootIsLeast(heap, i);
    }
    if heap != [] && limit > 0 && heap[0].due <= now {
      TakeRoot(heap);
      var less := TakenOut(heap, 0);
      hide AtMost, IsHeap, Dispatched, TakenOut;
      DispatchRefines(less, now, limit - 1);
      var (out, rest) := Dispatch(less, now, limit - 1);
      DispatchStep(heap, less, out, rest, now, limit);
    } else {
      hide AtMost, IsHeap, Dispatched;
      NothingDue(heap, now, limit);
    }
  }

  lemma NothingDue(heap: seq<Action>, now: uint64, limit: nat)
    requires IsHeap(heap) && (heap == [] || limit == 0 || heap[0].due > now)
    requires forall i :: 0 <= i < |heap| ==> AtMost(heap[0], heap[i])
    ensures Dispatched(heap, now, limit, [], heap)
  {
    forall b | b in heap && limit > 0
      ensures b.due > now
    {
      var i :| 0 <= i < |heap| && heap[i] == b;
      assert AtMost(heap[0], heap[i]);
    }
    hide IsHeap;
  }

  /** The root in front of what the rest of the heap yields. */
  lemma DispatchStep(heap: seq<Action>, less: seq<Action>, out: seq<Action>, rest: seq<Action>, now: uint64, limit: nat)
    requires heap != [] && multiset(heap) == multiset(less) + multiset{heap[0]} && heap[0].due <= now && limit > 0
    requires forall i :: 0 <= i < |heap| ==> AtMost(heap[0], heap[i])
    requires Dispatched(less, now, limit - 1, out, rest)
    ensures Dispatched(heap, now, limit, [heap[0]] + out, rest)
  {
    forall a | a in out || a in rest
      ensures AtMost(heap[0], a)
    {
      assert a in multiset(out) || a in multiset(rest);
      assert a in multiset(heap);
      var i :| 0 <= i < |heap| && heap[i] == a;
    }
    assert forall j :: 0 <= j < |out| ==> out[j] in out;
    hide AtMost, IsHeap;
  }

  // ---------- Cancelling ----------

  lemma {:induction false} SiftDownBag(s: seq<Action>, i: nat)
    requires i < |s|
    ensures multiset(SiftDown(s, i)) == multiset(s)
    ensures forall k :: 0 <= k < i ==> SiftDown(s, i)[k] == s[k]
    decreases |s| - i
  {
    var c := SmallestChild(s, i);
    if c != i {
      SwappedBag(s, i, c);
      SiftDownBag(Swapped(s, i, c), c);
    }
  }

  /** Cancelling takes out exactly the action it found, whatever becomes of the order. */
  lemma CancelTakesOne(s: seq<Action>, i: nat)
    requires i < |s|
    ensures multiset(s) == multiset(TakenOut(s, i)) + multiset{s[i]}
  {
    ReplacedBag(s, i);
    if i < |s| - 1 {
      SiftDownBag(s[i := s[|s| - 1]][..|s| - 1], i);
    }
  }

  /** It only sifts down, so the heap survives exactly when the action moved into the gap need not go up. */
  lemma CancelKeepsHeapIff(s: seq<Action>, i: nat)
    requires IsHeap(s) && i < |s|
    ensures IsHeap(TakenOut(s, i)) <==> i == |s| - 1 || i == 0 || !Less(s[|s| - 1], s[Parent(i)])
  {
    var last := |s| - 1;
    var t := s[i := s[last]][..last];
    assert forall k :: 0 <= k < last && k != i ==> t[k] == s[k];
    if i < last {
      if i > 0 && Less(s[last], s[Parent(i)]) {
        StaysBelow(s, t, i);
        assert TakenOut(s, i) == t && !AtMost(t[Parent(i)], t[i]);
      } else {
        GapFits(s, t, i);
        SiftDownHeaps(t, i);
      }
    }
  }

  lemma StaysBelow(s: seq<Action>, t: seq<Action>, i: nat)
    requires IsHeap(s) && 0 < i < |t| == |s| - 1 && Less(s[|s| - 1], s[Parent(i)])
    requires t[i] == s[|s| - 1] && forall k :: 0 <= k < |t| && k != i ==> t[k] == s[k]
    ensures SmallestChild(t, i) == i
  {
    forall j | (j == 2 * i + 1 || j == 2 * i + 2) && j < |t|
      ensures !Less(t[j], t[i])
    {
      assert Parent(j) == i;
      AtMostTransitive(s[Parent(i)], s[i], s[j]);
    }
  }

  lemma GapFits(s: seq<Action>, t: seq<Action>, i: nat)
    requires IsHeap(s) && i < |t| == |s| - 1 && (i == 0 || !Less(s[|s| - 1], s[Parent(i)]))
    requires t[i] == s[|s| - 1] && forall k :: 0 <= k < |t| && k != i ==> t[k] == s[k]
    ensures HeapButDown(t, i)
  {
    if i > 0 {
      forall j | 0 < j < |t| && Parent(j) == i
        ensures AtMost(t[Parent(i)], t[j])
      {
        AtMostTransitive(s[Parent(i)], s[i], s[j]);
      }
    }
  }

  // ---------- Runs ----------

  datatype Call =
    | ScheduleCall(action: Action)
    | DispatchCall(now: uint64, limit: nat)
    | CancelCall(operation: uint32, generation: uint32)

  /** The queue, all that was scheduled, all that came out, and all that was cancelled. */
  datatype History = History(
    queue: Queue, scheduled: multiset<Action>, dispatched: multiset<Action>, cancelled: multiset<Action>)

  function Step(h: History, c: Call): History {
    match c
    case ScheduleCall(a) =>
      var (q, ok) := Schedule(h.queue, a);
      h.(queue := q, scheduled := if ok then h.scheduled + multiset{a.(insertion := h.queue.nextInsertion)} else h.scheduled)
    case DispatchCall(now, limit) =>
      var (out, rest) := Dispatch(h.queue.heap, now, limit);
      h.(queue := h.queue.(heap := rest), dispatched := h.dispatched + multiset(out))
    case CancelCall(operation, generation) =>
      var (q, ok) := Cancel(h.queue, operation, generation);
      var i := FindOperation(h.queue.heap, operation, 0);
      h.(queue := q, cancelled := if ok then h.cancelled + multiset{h.queue.heap[i]} else h.cancelled)
  }

  predicate Conserved(h: History) {
    h.scheduled == h.dispatched + h.cancelled + multiset(h.queue.heap)
  }

  function Run(h: History, calls: seq<Call>): History
    decreases |calls|
  {
    if calls == [] then h else Run(Step(h, calls[0]), calls[1..])
  }

  lemma {:induction false} SiftUpBag(s: seq<Action>, i: nat)
    requires i < |s|
    ensures multiset(SiftUp(s, i)) == multiset(s)
    decreases i
  {
    if i > 0 && Less(s[i], s[Parent(i)]) {
      SwappedBag(s, i, Parent(i));
      SiftUpBag(Swapped(s, i, Parent(i)), Parent(i));
    }
  }

  lemma {:induction false} DispatchBag(heap: seq<Action>, now: uint64, limit: nat)
    ensures var (out, rest) := Dispatch(heap, now, limit); multiset(out) + multiset(rest) == multiset(heap)
    decreases |heap|
  {
    hide *;
    DispatchTurn(heap, now, limit);
    if heap != [] && limit > 0 && heap[0].due <= now {
      CancelTakesOne(heap, 0);
      var less := TakenOut(heap, 0);
      DispatchBag(less, now, limit - 1);
      ConsBag(heap[0], Dispatch(less, now, limit - 1).0);
    }
  }

  lemma DispatchTurn(heap: seq<Action>, now: uint64, limit: nat)
    ensures heap == [] || limit == 0 || heap[0].due > now ==> Dispatch(heap, now, limit) == ([], heap)
    ensures heap != [] && limit > 0 && heap[0].due <= now ==>
      var (out, rest) := Dispatch(TakenOut(heap, 0), now, limit - 1); Dispatch(heap, now, limit) == ([heap[0]] + out, rest)
  {
    hide TakenOut;
  }

  lemma ConsBag<T>(a: T, s: seq<T>)
    ensures multiset([a] + s) == multiset{a} + multiset(s)
  {
  }

  lemma ScheduleBag(q: Queue, a: Action)
    ensures var (r, ok) := Schedule(q, a);
      multiset(r.heap) == multiset(q.heap) + if ok then multiset{a.(insertion := q.nextInsertion)} else multiset{}
  {
    var one := a.(insertion := q.nextInsertion);
    SiftUpBag(q.heap + [one], |q.heap|);
    assert multiset(q.heap + [one]) == multiset(q.heap) + multiset{one};
    hide SiftUp;
  }

  lemma CancelBag(q: Queue, operation: uint32, generation: uint32)
    ensures var (r, ok) := Cancel(q, operation, generation); var i := FindOperation(q.heap, operation, 0);
      multiset(q.heap) == multiset(r.heap) + if ok then multiset{q.heap[i]} else multiset{}
  {
    var i := FindOperation(q.heap, operation, 0);
    if i < |q.heap| {
      CancelTakesOne(q.heap, i);
    }
    hide TakenOut, FindOperation;
  }

  lemma StepConserves(h: History, c: Call)
    requires Conserved(h)
    ensures Conserved(Step(h, c))
  {
    hide Schedule, Dispatch, Cancel, FindOperation;
    match c
    case ScheduleCall(a) => ScheduleBag(h.queue, a);
    case DispatchCall(now, limit) => DispatchBag(h.queue.heap, now, limit);
    case CancelCall(operation, generation) => CancelBag(h.queue, operation, generation);
  }

  /** Over any run of schedule, dispatch and cancel, whether or not the heap survives the cancels: nothing is lost and
      nothing comes out twice. */
  lemma {:induction false} NothingIsLost(h: History, calls: seq<Call>)
    requires Conserved(h)
    ensures Conserved(Run(h, calls))
    decreases |calls|
  {
    hide Conserved, Step;
    if calls != [] {
      StepConserves(h, calls[0]);
      NothingIsLost(Step(h, calls[0]), calls[1..]);
    }
  }

  /** The cancel finds an action that it takes out without breaking the heap. */
  predicate CancelFits(q: Queue, operation: uint32) {
    var i := FindOperation(q.heap, operation, 0);
    i < |q.heap| ==> i == |q.heap| - 1 || i == 0 || !Less(q.heap[|q.heap| - 1], q.heap[Parent(i)])
  }

  ghost predicate CancelsFit(h: History, calls: seq<Call>)
    decreases |calls|
  {
    calls != [] ==>
      && (calls[0].CancelCall? ==> CancelFits(h.queue, calls[0].operation))
      && CancelsFit(Step(h, calls[0]), calls[1..])
  }

  /** The heap stays one over any run whose cancels fit, in particular over any run without cancels. */
  lemma {:induction false} HeapIsKept(h: History, calls: seq<Call>)
    requires IsHeap(h.queue.heap) && CancelsFit(h, calls)
    ensures IsHeap(Run(h, calls).queue.heap)
    decreases |calls|
  {
    if calls != [] {
      match calls[0] {
        case ScheduleCall(a) => ScheduleKeeps(h.queue, a);
        case DispatchCall(now, limit) => DispatchRefines(h.queue.heap, now, limit);
        case CancelCall(operation, generation) =>
          var i := FindOperation(h.queue.heap, operation, 0);
          if i < |h.queue.heap| {
            CancelKeepsHeapIff(h.queue.heap, i);
          }
      }
      hide IsHeap, Schedule, Dispatch, Sorted, AtMost, TakenOut, FindOperation, CancelFits;
      HeapIsKept(Step(h, calls[0]), calls[1..]);
    }
  }

  // ---------- A due action left behind ----------

  function At(due: uint64): Action {
    Action(due, 0, 0, 0, 0, 0, 0, 0)
  }

  /** A due action left behind: of the heap 0 3 1 4 5 6 2, entry 3 is cancelled; at time 2 the actions due at 0 and 1
      come out and the one due at 2 does not. */
  lemma CancelCanHideADueAction()
    ensures var s := [At(0), At(3), At(1), At(4), At(5), At(6), At(2)];
      var t := TakenOut(s, 3);
      IsHeap(s) && Dispatch(t, 2, 64).0 == [At(0), At(1)] && At(2) in Dispatch(t, 2, 64).1
  {
    var s := [At(0), At(3), At(1), At(4), At(5), At(6), At(2)];
    var t := [At(0), At(3), At(1), At(2), At(5), At(6)];
    var u := [At(1), At(3), At(6), At(2), At(5)];
    var v := [At(3), At(2), At(6), At(5)];
    assert s[3 := At(2)][..6] == t && SiftDown(t, 3) == t;
    FirstOut(t, u);
    SecondOut(u, v);
    hide TakenOut;
    assert Dispatch(v, 2, 62) == ([], v);
    assert Dispatch(u, 2, 63) == ([At(1)] + [], v);
    assert Dispatch(t, 2, 64) == ([At(0)] + ([At(1)] + []), v);
    assert v[1] == At(2);
  }

  lemma FirstOut(t: seq<Action>, u: seq<Action>)
    requires t == [At(0), At(3), At(1), At(2), At(5), At(6)] && u == [At(1), At(3), At(6), At(2), At(5)]
    ensures TakenOut(t, 0) == u
  {
    var t0 := [At(6), At(3), At(1), At(2), At(5)];
    assert t[0 := At(6)][..5] == t0 && SmallestChild(t0, 0) == 2 && Swapped(t0, 0, 2) == u && SiftDown(u, 2) == u;
  }

  lemma SecondOut(u: seq<Action>, v: seq<Action>)
    requires u == [At(1), At(3), At(6), At(2), At(5)] && v == [At(3), At(2), At(6), At(5)]
    ensures TakenOut(u, 0) == v
  {
    var u0 := [At(5), At(3), At(6), At(2)];
    var u1 := [At(3), At(5), At(6), At(2)];
    assert u[0 := At(5)][..4] == u0 && SmallestChild(u0, 0) == 1 && Swapped(u0, 0, 1) == u1;
    assert SmallestChild(u1, 1) == 3 && Swapped(u1, 1, 3) == v && SiftDown(v, 3) == v;
    assert SiftDown(u0, 0) == SiftDown(u1, 1) == v;
  }
}
