/** Who gets the bus when a transfer ends: the completion callbacks and the waiting transfers take turns, and the first
    one that fits and that the port takes is next. */
module I2cBusService {
  import opened Bits
  import opened Sequences
  import opened StorageRecord
  import opened I2cBusManager
  import opened I2cBusSafety

  // ---------- The contest ----------

  /** A request that a completion callback submits, or a waiting transfer. */
  datatype Contender = Asked(request: BusRequest) | Queued(transaction: Transaction)

  function AskedAll(rs: seq<BusRequest>): (cs: seq<Contender>)
    ensures |cs| == |rs| && forall i :: 0 <= i < |rs| ==> cs[i] == Asked(rs[i])
  {
    seq(|rs|, i requires 0 <= i < |rs| => Asked(rs[i]))
  }

  function FirstList(lists: seq<seq<BusRequest>>): seq<BusRequest> {
    if lists == [] then [] else lists[0]
  }

  function LaterLists(lists: seq<seq<BusRequest>>): seq<seq<BusRequest>> {
    if lists == [] then [] else lists[1..]
  }

  /** Everybody who may be next, in turn: what the callback of the ended transfer submits, the best waiting transfer, what
      the callback of that one submits should it not start, the second best, and so on. */
  function Contest(lists: seq<seq<BusRequest>>, order: seq<Transaction>): seq<Contender>
    decreases |order|
  {
    AskedAll(FirstList(lists))
    + (if order == [] then [] else [Queued(order[0])] + Contest(LaterLists(lists), order[1..]))
  }

  /** Nothing but the port stands between the contender and the bus. */
  predicate Fits(b: Bus, c: Contender) {
    match c
    case Asked(r) => Refusal(b, r).None?
    case Queued(t) => Startable(b, t.request)
  }

  function AnswersAfter(b: Bus, answers: seq<bool>, contest: seq<Contender>): seq<bool>
    decreases |contest|
  {
    if contest == [] then answers
    else AnswersAfter(b, if Fits(b, contest[0]) && answers != [] then answers[1..] else answers, contest[1..])
  }

  /** The first contender that fits and gets a positive answer; the port answers only those that fit. */
  function Winner(b: Bus, answers: seq<bool>, contest: seq<Contender>): (j: nat)
    ensures j <= |contest|
    decreases |contest|
  {
    if contest == [] then 0
    else if !Fits(b, contest[0]) then 1 + Winner(b, answers, contest[1..])
    else if answers != [] && answers[0] then 0
    else 1 + Winner(b, if answers == [] then [] else answers[1..], contest[1..])
  }

  lemma {:induction false} WinnerAppend(b: Bus, answers: seq<bool>, front: seq<Contender>, back: seq<Contender>)
    ensures Winner(b, answers, front + back) ==
      if Winner(b, answers, front) < |front| then Winner(b, answers, front)
      else |front| + Winner(b, AnswersAfter(b, answers, front), back)
    decreases |front|
  {
    if front == [] {
      assert front + back == back;
    } else {
      assert (front + back)[1..] == front[1..] + back;
      hide Fits;
      WinnerAppend(b, if Fits(b, front[0]) && answers != [] then answers[1..] else answers, front[1..], back);
    }
  }

  /** The contest looks at the clients and at whether a port is bound, nothing else. */
  lemma {:induction false} SameContest(b: Bus, c: Bus, answers: seq<bool>, contest: seq<Contender>)
    requires c.clients == b.clients && c.portBound == b.portBound
    ensures Winner(c, answers, contest) == Winner(b, answers, contest)
    ensures AnswersAfter(c, answers, contest) == AnswersAfter(b, answers, contest)
    decreases |contest|
  {
    if contest != [] {
      assert Fits(c, contest[0]) == Fits(b, contest[0]);
      hide Fits;
      SameContest(b, c, if Fits(b, contest[0]) && answers != [] then answers[1..] else answers, contest[1..]);
    }
  }

  // ---------- What a callback submits ----------

  /** Those of the requests that are admitted to the queue while there is room. */
  function AdmittedOf(b: Bus, rs: seq<BusRequest>, room: nat): (admitted: seq<BusRequest>)
    ensures |admitted| <= room
  {
    if rs == [] || room == 0 then []
    else if Refusal(b, rs[0]).None? then [rs[0]] + AdmittedOf(b, rs[1..], room - 1)
    else AdmittedOf(b, rs[1..], room)
  }

  function RequestsOf(ts: seq<Transaction>): (rs: seq<BusRequest>)
    ensures |rs| == |ts| && forall i :: 0 <= i < |ts| ==> rs[i] == ts[i].request
  {
    seq(|ts|, i requires 0 <= i < |ts| => ts[i].request)
  }

  /** c is b with the admitted ones of rs behind what waited. */
  predicate Extended(b: Bus, c: Bus, rs: seq<BusRequest>) {
    && |b.pending| <= PENDING_CAPACITY && |b.pending| <= |c.pending| && c.pending[..|b.pending|] == b.pending
    && RequestsOf(c.pending[|b.pending|..]) == AdmittedOf(b, rs, PENDING_CAPACITY - |b.pending|)
    && c.world.notified == b.world.notified && c.generation == b.generation
  }

  /** While a transfer is active, requests only queue up. */
  lemma {:induction false} BusyCallback(b: Bus, rs: seq<BusRequest>)
    requires b.active.Some? && |b.pending| <= PENDING_CAPACITY
    ensures var c := SubmitAll(b, rs); c.active == b.active && Extended(b, c, rs)
    decreases |rs|
  {
    if rs != [] {
      var c := Submit(b, rs[0]).0;
      SubmitBusy(b, rs[0]);
      hide Submit, Refusal, Extended;
      BusyCallback(c, rs[1..]);
      ExtendedByOne(b, c, SubmitAll(c, rs[1..]), rs);
    } else {
      assert b.pending[|b.pending|..] == [];
    }
  }

  lemma ExtendedByOne(b: Bus, c: Bus, d: Bus, rs: seq<BusRequest>)
    requires rs != [] && |b.pending| <= PENDING_CAPACITY && Extended(c, d, rs[1..])
    requires c.clients == b.clients && c.portBound == b.portBound && c.generation == b.generation
    requires c.world.notified == b.world.notified
    requires if Refusal(b, rs[0]).None? && |b.pending| < PENDING_CAPACITY then
        |c.pending| == |b.pending| + 1 && c.pending[..|b.pending|] == b.pending && c.pending[|b.pending|].request == rs[0]
      else c.pending == b.pending
    ensures Extended(b, d, rs)
  {
    SameAdmitted(b, c, rs[1..], PENDING_CAPACITY - |c.pending|);
    hide Refusal;
    if |c.pending| > |b.pending| {
      var n := |b.pending|;
      assert d.pending[..n] == d.pending[..n + 1][..n] == b.pending;
      assert d.pending[n] == d.pending[..n + 1][n];
      assert d.pending[n..] == [d.pending[n]] + d.pending[n + 1..];
      assert RequestsOf(d.pending[n..]) == [rs[0]] + RequestsOf(d.pending[n + 1..]);
    }
  }

  lemma SubmitBusy(b: Bus, r: BusRequest)
    requires b.active.Some? && |b.pending| <= PENDING_CAPACITY
    ensures var c := Submit(b, r).0;
      && c.active == b.active && c.clients == b.clients && c.portBound == b.portBound && c.generation == b.generation
      && c.world.notified == b.world.notified
      && if Refusal(b, r).None? && |b.pending| < PENDING_CAPACITY then
           |c.pending| == |b.pending| + 1 && c.pending[..|b.pending|] == b.pending && c.pending[|b.pending|].request == r
         else c.pending == b.pending
  {
    hide Refusal;
  }

  lemma {:induction false} SameAdmitted(b: Bus, c: Bus, rs: seq<BusRequest>, room: nat)
    requires c.clients == b.clients && c.portBound == b.portBound
    ensures AdmittedOf(c, rs, room) == AdmittedOf(b, rs, room)
    decreases |rs|
  {
    if rs != [] && room > 0 {
      assert Refusal(c, rs[0]) == Refusal(b, rs[0]);
      hide Refusal;
      SameAdmitted(b, c, rs[1..], room - 1);
      SameAdmitted(b, c, rs[1..], room);
    }
  }

  /** The bus is as b but for the counters and the answers used up. */
  predicate OnlyAsked(b: Bus, c: Bus, answers: seq<bool>) {
    && b.nextId <= c.nextId && b.nextAdmission <= c.nextAdmission
    && c == b.(nextId := c.nextId, nextAdmission := c.nextAdmission, world := b.world.(portAnswers := answers))
  }

  lemma SubmitIdle(b: Bus, r: BusRequest)
    requires b.active.None?
    ensures var c := Submit(b, r).0; var answers := b.world.portAnswers;
      if Fits(b, Asked(r)) && answers != [] && answers[0] then
        && c.active.Some? && c.active.value.request == r && c.active.value.busGeneration == b.generation
        && c.active.value.admission >= b.nextAdmission && c.pending == b.pending && c.clients == b.clients
        && c.portBound == b.portBound && c.generation == b.generation && c.world.notified == b.world.notified
      else OnlyAsked(b, c, if Fits(b, Asked(r)) && answers != [] then answers[1..] else answers)
  {
    hide AcceptsAddress;
  }

  /** On an idle bus, the first request that fits and is taken becomes active and the others queue up. */
  lemma {:induction false} IdleCallback(b: Bus, rs: seq<BusRequest>)
    requires b.active.None? && |b.pending| <= PENDING_CAPACITY
    ensures var c := SubmitAll(b, rs); var answers := b.world.portAnswers;
      var j := Winner(b, answers, AskedAll(rs));
      if j == |rs| then OnlyAsked(b, c, AnswersAfter(b, answers, AskedAll(rs)))
      else
        && c.active.Some? && c.active.value.request == rs[j] && c.active.value.busGeneration == b.generation
        && c.active.value.admission >= b.nextAdmission && Extended(b, c, rs[j + 1..])
    decreases |rs|
  {
    if rs != [] {
      var c := Submit(b, rs[0]).0;
      var rest := AskedAll(rs[1..]);
      SubmitIdle(b, rs[0]);
      assert AskedAll(rs)[0] == Asked(rs[0]) && AskedAll(rs)[1..] == rest;
      assert SubmitAll(b, rs) == SubmitAll(c, rs[1..]);
      assert Winner(b, b.world.portAnswers, AskedAll(rs)) ==
        if c.active.Some? then 0 else 1 + Winner(b, c.world.portAnswers, rest);
      assert c.active.None? ==>
        AnswersAfter(b, b.world.portAnswers, AskedAll(rs)) == AnswersAfter(b, c.world.portAnswers, rest);
      hide Submit, Fits, Refusal, AskedAll, Extended, SubmitAll, Winner, AnswersAfter;
      if c.active.Some? {
        BusyCallback(c, rs[1..]);
        ExtendedFrom(b, c, SubmitAll(c, rs[1..]), rs[1..]);
      } else {
        IdleCallback(c, rs[1..]);
        SameContest(b, c, c.world.portAnswers, rest);
        var j := Winner(c, c.world.portAnswers, rest);
        if j < |rs| - 1 {
          assert rs[1..][j + 1..] == rs[j + 2..];
          ExtendedFrom(b, c, SubmitAll(c, rs[1..]), rs[j + 2..]);
        }
      }
    }
  }

  lemma ExtendedFrom(b: Bus, c: Bus, d: Bus, rs: seq<BusRequest>)
    requires c.clients == b.clients && c.portBound == b.portBound && c.generation == b.generation
    requires c.pending == b.pending && c.world.notified == b.world.notified && Extended(c, d, rs)
    ensures Extended(b, d, rs)
  {
    SameAdmitted(b, c, rs, PENDING_CAPACITY - |b.pending|);
    hide AdmittedOf;
  }

  // ---------- Who is next ----------

  function QueuedIn(contest: seq<Contender>): (k: nat) {
    if contest == [] then 0 else (if contest[0].Queued? then 1 else 0) + QueuedIn(contest[1..])
  }

  /** The requests up to the next waiting transfer: the rest of the callback's list. */
  function RestOfList(contest: seq<Contender>): seq<BusRequest> {
    if contest == [] || contest[0].Queued? then [] else [contest[0].request] + RestOfList(contest[1..])
  }

  /** Bus b has just lost its transfer, which ended with result. Bus d is what becomes of it: the winner of the contest is
      active; the waiting transfers tried before it were reported failed, in order; the others still wait, followed by
      what else the winner's list submitted. */
  ghost predicate NextIs(b: Bus, ended: Transaction, result: TransactionResult, d: Bus) {
    var order := InOrder(b.pending);
    var contest := Contest(b.world.reactions, order);
    var j := Winner(b, b.world.portAnswers, contest);
    Placed(b, contest, j, order, QueuedIn(contest[..j]), d)
    && d.world.notified == b.world.notified + [CompletionOf(ended, result)] + Failures(order[..QueuedIn(contest[..j])])
  }

  ghost predicate Placed(b: Bus, contest: seq<Contender>, j: nat, order: seq<Transaction>, k: nat, d: Bus) {
    && j <= |contest| && k <= |order|
    && if j == |contest| then k == |order| && d.active.None? && d.pending == []
       else
         match contest[j]
         case Queued(t) =>
           && k < |order| && t == order[k] && d.active == Some(t.(busGeneration := b.generation))
           && multiset(d.pending) == multiset(order[k + 1..])
         case Asked(r) =>
           && d.active.Some? && d.active.value.request == r && d.active.value.busGeneration == b.generation
           && d.active.value.admission >= b.nextAdmission
           && Remaining(b, order[k..], RestOfList(contest[j + 1..]), d.pending)
  }

  predicate Remaining(b: Bus, waiting: seq<Transaction>, rest: seq<BusRequest>, pending: seq<Transaction>) {
    && |waiting| <= PENDING_CAPACITY && |waiting| <= |pending| && multiset(pending[..|waiting|]) == multiset(waiting)
    && RequestsOf(pending[|waiting|..]) == AdmittedOf(b, rest, PENDING_CAPACITY - |waiting|)
  }

  lemma {:induction false} RestOfAsked(rs: seq<BusRequest>, back: seq<Contender>)
    requires back == [] || back[0].Queued?
    ensures RestOfList(AskedAll(rs) + back) == rs
    decreases |rs|
  {
    var contest := AskedAll(rs) + back;
    if rs != [] {
      assert contest[0] == Asked(rs[0]) && contest[1..] == AskedAll(rs[1..]) + back;
      RestOfAsked(rs[1..], back);
    } else {
      assert contest == back;
    }
  }

  lemma {:induction false} QueuedInAsked(rs: seq<BusRequest>)
    ensures QueuedIn(AskedAll(rs)) == 0
    decreases |rs|
  {
    if rs != [] {
      assert AskedAll(rs)[1..] == AskedAll(rs[1..]);
      QueuedInAsked(rs[1..]);
    }
  }

  lemma {:induction false} QueuedInAppend(a: seq<Contender>, b: seq<Contender>)
    ensures QueuedIn(a + b) == QueuedIn(a) + QueuedIn(b)
    decreases |a|
  {
    if a == [] {
      assert a + b == b;
    } else {
      assert (a + b)[1..] == a[1..] + b;
      QueuedInAppend(a[1..], b);
    }
  }

  // ---------- One round of the contest ----------

  /** The end of a transfer is reported, its callback submits, and if the bus is still idle the waiting ones follow. */
  function Ended(b: Bus, ended: Transaction, result: TransactionResult): Bus {
    StartNext(Notify(b, ended, result))
  }

  /** The bus once the end has been reported, before the callback submits anything. */
  function Told(b: Bus, ended: Transaction, result: TransactionResult): Bus {
    b.(world := b.world.(notified := b.world.notified + [CompletionOf(ended, result)],
                         reactions := LaterLists(b.world.reactions)))
  }

  lemma NotifyIsTold(b: Bus, ended: Transaction, result: TransactionResult)
    requires Registered(b, ended)
    ensures Notify(b, ended, result) == SubmitAll(Told(b, ended, result), FirstList(b.world.reactions))
  {
    if b.world.reactions == [] {
      assert SubmitAll(Told(b, ended, result), []) == Told(b, ended, result);
    }
    hide SubmitAll, FindClient;
  }

  lemma MakeNext(b: Bus, ended: Transaction, result: TransactionResult, d: Bus, contest: seq<Contender>, j: nat, k: nat,
                 order: seq<Transaction>)
    requires order == InOrder(b.pending) && contest == Contest(b.world.reactions, order)
    requires j == Winner(b, b.world.portAnswers, contest) && k == QueuedIn(contest[..j])
    requires Placed(b, contest, j, order, k, d)
    requires d.world.notified == b.world.notified + [CompletionOf(ended, result)] + Failures(order[..k])
    ensures NextIs(b, ended, result, d)
  {
    hide InOrder, Contest, Winner, QueuedIn, Placed, Failures;
  }

  /** The list that is asked first, in front of the rest of the contest. */
  lemma AskedFirst(b: Bus, contest: seq<Contender>, rs: seq<BusRequest>, back: seq<Contender>)
    requires contest == AskedAll(rs) + back && (back == [] || back[0].Queued?)
    ensures var j := Winner(b, b.world.portAnswers, AskedAll(rs));
      if j < |rs| then
        && Winner(b, b.world.portAnswers, contest) == j && contest[j] == Asked(rs[j])
        && QueuedIn(contest[..j]) == 0 && RestOfList(contest[j + 1..]) == rs[j + 1..]
      else
        Winner(b, b.world.portAnswers, contest) == |rs| + Winner(b, AnswersAfter(b, b.world.portAnswers, AskedAll(rs)), back)
  {
    var j := Winner(b, b.world.portAnswers, AskedAll(rs));
    WinnerAppend(b, b.world.portAnswers, AskedAll(rs), back);
    if j < |rs| {
      assert contest[..j] == AskedAll(rs[..j]);
      QueuedInAsked(rs[..j]);
      assert contest[j + 1..] == AskedAll(rs[j + 1..]) + back;
      RestOfAsked(rs[j + 1..], back);
    }
  }

  /** The callback of the ended transfer wins. */
  lemma CallbackWins(b: Bus, ended: Transaction, result: TransactionResult)
    requires b.active.None? && QueueOk(b) && Registered(b, ended)
    requires var rs := FirstList(b.world.reactions); Winner(b, b.world.portAnswers, AskedAll(rs)) < |rs|
    ensures NextIs(b, ended, result, Ended(b, ended, result))
  {
    var rs := FirstList(b.world.reactions);
    var told := Told(b, ended, result);
    var order := InOrder(b.pending);
    var contest := Contest(b.world.reactions, order);
    NotifyIsTold(b, ended, result);
    IdleCallback(told, rs);
    SameContest(b, told, b.world.portAnswers, AskedAll(rs));
    InOrderIsSorted(b);
    var d := SubmitAll(told, rs);
    assert Ended(b, ended, result) == d;
    assert |b.pending| <= PENDING_CAPACITY;
    var back := if order == [] then [] else [Queued(order[0])] + Contest(LaterLists(b.world.reactions), order[1..]);
    assert contest == AskedAll(rs) + back;
    var j := Winner(b, b.world.portAnswers, AskedAll(rs));
    hide InOrder, Contest, Winner, QueuedIn, RestOfList, AskedAll, Extended, Placed, QueueOk, FindClient, SubmitAll, Notify, StartNext;
    AskedFirst(b, contest, rs, back);
    CallbackPlaced(b, told, contest, j, order, rs, d);
    assert order[..0] == [] && Failures([]) == [];
    MakeNext(b, ended, result, d, contest, j, 0, order);
  }

  lemma CallbackPlaced(b: Bus, told: Bus, contest: seq<Contender>, j: nat, order: seq<Transaction>, rs: seq<BusRequest>, d: Bus)
    requires j < |rs| && j < |contest| && contest[j] == Asked(rs[j]) && RestOfList(contest[j + 1..]) == rs[j + 1..]
    requires |order| == |b.pending| <= PENDING_CAPACITY && multiset(order) == multiset(b.pending)
    requires told == b.(world := told.world)
    requires d.active.Some? && d.active.value.request == rs[j] && d.active.value.busGeneration == b.generation
    requires d.active.value.admission >= b.nextAdmission && Extended(told, d, rs[j + 1..])
    ensures Placed(b, contest, j, order, 0, d) && d.world.notified == told.world.notified
  {
    SameAdmitted(b, told, rs[j + 1..], PENDING_CAPACITY - |b.pending|);
    hide AdmittedOf, RestOfList;
    assert order[0..] == order;
  }

  /** The callback starts nothing: the best waiting transfer is tried, if there is one. */
  lemma CallbackLoses(b: Bus, ended: Transaction, result: TransactionResult) returns (idle: Bus)
    requires b.active.None? && QueueOk(b) && Registered(b, ended)
    requires var rs := FirstList(b.world.reactions); Winner(b, b.world.portAnswers, AskedAll(rs)) == |rs|
    ensures idle == Notify(b, ended, result) && idle.active.None?
    ensures OnlyAsked(Told(b, ended, result), idle, AnswersAfter(b, b.world.portAnswers, AskedAll(FirstList(b.world.reactions))))
  {
    var rs := FirstList(b.world.reactions);
    var told := Told(b, ended, result);
    idle := Notify(b, ended, result);
    NotifyIsTold(b, ended, result);
    IdleCallback(told, rs);
    SameContest(b, told, b.world.portAnswers, AskedAll(rs));
    hide SubmitAll, Notify, Winner, AnswersAfter, AskedAll, FindClient;
  }

  lemma NobodyLeft(b: Bus, ended: Transaction, result: TransactionResult)
    requires b.active.None? && QueueOk(b) && Registered(b, ended) && b.pending == []
    requires var rs := FirstList(b.world.reactions); Winner(b, b.world.portAnswers, AskedAll(rs)) == |rs|
    ensures NextIs(b, ended, result, Ended(b, ended, result))
  {
    var idle := CallbackLoses(b, ended, result);
    var rs := FirstList(b.world.reactions);
    var contest := Contest(b.world.reactions, []);
    assert contest == AskedAll(rs) && contest[..|rs|] == AskedAll(rs);
    QueuedInAsked(rs);
    assert Ended(b, ended, result) == idle;
    assert Failures([]) == [];
    hide AskedAll, Winner, AnswersAfter, QueuedIn, Notify, StartNext, FindClient;
    MakeNext(b, ended, result, idle, contest, |rs|, 0, []);
  }

  /** The best waiting transfer wins. */
  lemma BestWins(b: Bus, ended: Transaction, result: TransactionResult, idle: Bus)
    requires b.active.None? && QueueOk(b) && Registered(b, ended) && b.pending != []
    requires idle == Notify(b, ended, result)
    requires var rs := FirstList(b.world.reactions);
      && Winner(b, b.world.portAnswers, AskedAll(rs)) == |rs|
      && OnlyAsked(Told(b, ended, result), idle, AnswersAfter(b, b.world.portAnswers, AskedAll(rs)))
    requires Start(idle.(pending := Removed(b.pending, Best(b.pending))), b.pending[Best(b.pending)]).active.Some?
    ensures NextIs(b, ended, result, Ended(b, ended, result))
  {
    var rs := FirstList(b.world.reactions);
    var (best, order) := (Best(b.pending), InOrder(b.pending));
    var t := b.pending[best];
    var d := Start(idle.(pending := Removed(b.pending, best)), t);
    var contest := Contest(b.world.reactions, order);
    var later := Contest(LaterLists(b.world.reactions), order[1..]);
    assert Ended(b, ended, result) == d;
    assert d.pending == Removed(b.pending, best) && d.world.notified == b.world.notified + [CompletionOf(ended, result)];
    BestOfOrder(b);
    BestAnswers(b, ended, result, idle, t, [Queued(t)] + later);
    assert contest == AskedAll(rs) + ([Queued(t)] + later);
    hide *;
    AskedFirst(b, contest, rs, [Queued(t)] + later);
    assert contest[..|rs|] == AskedAll(rs) && contest[|rs|] == Queued(t);
    QueuedInAsked(rs);
    BestPlaced(b, contest, |rs|, order, d);
    NoFailures(b, ended, result, order, d);
    MakeNext(b, ended, result, d, contest, |rs|, 0, order);
  }

  lemma BestOfOrder(b: Bus)
    requires QueueOk(b) && b.pending != []
    ensures var (order, rest) := (InOrder(b.pending), Removed(b.pending, Best(b.pending)));
      order != [] && order[0] == b.pending[Best(b.pending)] && order[1..] == InOrder(rest) && multiset(rest) == multiset(order[1..])
  {
    RemoveFromQueue(b, Best(b.pending));
    InOrderIsSorted(b.(pending := Removed(b.pending, Best(b.pending))));
    hide Removed, Best, QueueOk;
  }

  lemma BestPlaced(b: Bus, contest: seq<Contender>, j: nat, order: seq<Transaction>, d: Bus)
    requires j < |contest| && order != [] && contest[j] == Queued(order[0])
    requires d.active == Some(order[0].(busGeneration := b.generation)) && multiset(d.pending) == multiset(order[1..])
    ensures Placed(b, contest, j, order, 0, d)
  {
    assert order[0 + 1..] == order[1..];
  }

  lemma NoFailures(b: Bus, ended: Transaction, result: TransactionResult, order: seq<Transaction>, d: Bus)
    requires d.world.notified == b.world.notified + [CompletionOf(ended, result)]
    ensures d.world.notified == b.world.notified + [CompletionOf(ended, result)] + Failures(order[..0])
  {
    assert order[..0] == [] && Failures([]) == [];
  }

  /** Trying the best waiting transfer decides the next place in the contest. */
  lemma BestAnswers(b: Bus, ended: Transaction, result: TransactionResult, idle: Bus, t: Transaction, back: seq<Contender>)
    requires b.active.None? && back != [] && back[0] == Queued(t) && t in b.pending
    requires var rs := FirstList(b.world.reactions);
      OnlyAsked(Told(b, ended, result), idle, AnswersAfter(b, b.world.portAnswers, AskedAll(rs)))
    ensures var answers := AnswersAfter(b, b.world.portAnswers, AskedAll(FirstList(b.world.reactions)));
      var s := Start(idle.(pending := Removed(b.pending, Best(b.pending))), t);
      && (s.active.Some? ==> Winner(b, answers, back) == 0 && s.active == Some(t.(busGeneration := b.generation)))
      && (s.active.None? ==>
            && Winner(b, answers, back) == 1 + Winner(b, s.world.portAnswers, back[1..])
            && s == idle.(pending := Removed(b.pending, Best(b.pending)), world := idle.world.(portAnswers := s.world.portAnswers)))
  {
    hide AnswersAfter, AskedAll, AcceptsAddress, FindClient, Removed, Best;
  }

  /** The best waiting transfer cannot start: it is reported failed, and the contest goes on without it. */
  lemma BestLoses(b: Bus, ended: Transaction, result: TransactionResult, idle: Bus) returns (s: Bus, t: Transaction)
    requires b.active.None? && QueueOk(b) && Registered(b, ended) && b.pending != []
    requires idle == Notify(b, ended, result)
    requires OnlyAsked(Told(b, ended, result), idle, AnswersAfter(b, b.world.portAnswers, AskedAll(FirstList(b.world.reactions))))
    requires Start(idle.(pending := Removed(b.pending, Best(b.pending))), b.pending[Best(b.pending)]).active.None?
    ensures t == b.pending[Best(b.pending)] && s.active.None? && QueueOk(s) && Registered(s, t)
    ensures s.pending == Removed(b.pending, Best(b.pending)) && s.world.reactions == LaterLists(b.world.reactions)
    ensures s.world.notified == b.world.notified + [CompletionOf(ended, result)] && s.generation == b.generation
    ensures s.clients == b.clients && s.portBound == b.portBound && s.nextAdmission >= b.nextAdmission
    ensures Ended(b, ended, result) == Ended(s, t, TxFailed)
    ensures s == Start(idle.(pending := Removed(b.pending, Best(b.pending))), t)
  {
    var best := Best(b.pending);
    t := b.pending[best];
    s := Start(idle.(pending := Removed(b.pending, best)), t);
    RemoveFromQueue(b, best);
    assert s.pending == Removed(b.pending, best);
    var told := Notify(s, t, TxFailed);
    assert StartNext(idle) == if told.active.Some? then told else StartNext(told);
    assert told.active.Some? ==> StartNext(told) == told;
    hide Notify, StartNext, Removed, Best, AnswersAfter, AskedAll, FindClient, Start;
  }

  lemma LiftNext(b: Bus, ended: Transaction, result: TransactionResult, s: Bus, t: Transaction, d: Bus)
    requires QueueOk(b) && b.pending != [] && t == b.pending[Best(b.pending)]
    requires s.pending == Removed(b.pending, Best(b.pending)) && s.world.reactions == LaterLists(b.world.reactions)
    requires s.world.notified == b.world.notified + [CompletionOf(ended, result)] && s.generation == b.generation
    requires s.clients == b.clients && s.portBound == b.portBound && s.nextAdmission >= b.nextAdmission
    requires NextIs(s, t, TxFailed, d)
    requires var rs := FirstList(b.world.reactions); var later := Contest(s.world.reactions, InOrder(s.pending));
      Winner(b, b.world.portAnswers, AskedAll(rs) + ([Queued(t)] + later)) == |rs| + 1 + Winner(b, s.world.portAnswers, later)
    ensures NextIs(b, ended, result, d)
  {
    hide *;
    var rs := FirstList(b.world.reactions);
    var (order, rest) := (InOrder(b.pending), InOrder(s.pending));
    var contest := Contest(b.world.reactions, order);
    var later := Contest(s.world.reactions, rest);
    var i, k := NextMeans(s, t, TxFailed, d);
    ContestUnfolds(b, s, t);
    SameContest(b, s, s.world.portAnswers, later);
    QueuedLater(rs, t, later, i);
    assert contest[|rs| + 1..] == later;
    PlacedLater(b, s, contest, later, |rs| + 1, i, order, k, d);
    FailuresCons(t, rest, k);
    MakeNext(b, ended, result, d, contest, |rs| + 1 + i, k + 1, order);
  }

  lemma NextMeans(b: Bus, ended: Transaction, result: TransactionResult, d: Bus) returns (j: nat, k: nat)
    requires NextIs(b, ended, result, d)
    ensures var order := InOrder(b.pending); var contest := Contest(b.world.reactions, order);
      && j == Winner(b, b.world.portAnswers, contest) && k == QueuedIn(contest[..j]) && k <= |order|
      && Placed(b, contest, j, order, k, d)
      && d.world.notified == b.world.notified + [CompletionOf(ended, result)] + Failures(order[..k])
  {
    var contest := Contest(b.world.reactions, InOrder(b.pending));
    j := Winner(b, b.world.portAnswers, contest);
    k := QueuedIn(contest[..j]);
    hide InOrder, Contest, Winner, QueuedIn, Failures;
  }

  lemma ContestUnfolds(b: Bus, s: Bus, t: Transaction)
    requires b.pending != [] && t == b.pending[Best(b.pending)]
    requires s.pending == Removed(b.pending, Best(b.pending)) && s.world.reactions == LaterLists(b.world.reactions)
    ensures InOrder(b.pending) == [t] + InOrder(s.pending)
    ensures Contest(b.world.reactions, InOrder(b.pending))
         == AskedAll(FirstList(b.world.reactions)) + ([Queued(t)] + Contest(s.world.reactions, InOrder(s.pending)))
  {
    var (order, rest) := (InOrder(b.pending), InOrder(s.pending));
    assert order == [t] + rest;
    hide InOrder, Removed, Best, AskedAll, LaterLists, FirstList;
    assert order[1..] == rest;
  }

  lemma QueuedLater(rs: seq<BusRequest>, t: Transaction, later: seq<Contender>, i: nat)
    requires i <= |later|
    ensures var contest := AskedAll(rs) + ([Queued(t)] + later);
      QueuedIn(contest[..|rs| + 1 + i]) == QueuedIn(later[..i]) + 1
  {
    var contest := AskedAll(rs) + ([Queued(t)] + later);
    assert contest[..|rs| + 1 + i] == AskedAll(rs) + ([Queued(t)] + later[..i]);
    QueuedInAppend(AskedAll(rs), [Queued(t)] + later[..i]);
    QueuedInAsked(rs);
    assert ([Queued(t)] + later[..i])[1..] == later[..i];
  }

  lemma PlacedLater(b: Bus, s: Bus, contest: seq<Contender>, later: seq<Contender>, n: nat, i: nat, order: seq<Transaction>,
                    k: nat, d: Bus)
    requires n <= |contest| && contest[n..] == later && order != [] && Placed(s, later, i, order[1..], k, d)
    requires s.clients == b.clients && s.portBound == b.portBound && s.generation == b.generation
    requires s.nextAdmission >= b.nextAdmission
    ensures Placed(b, contest, n + i, order, k + 1, d)
  {
    var rest := order[1..];
    assert rest[k..] == order[k + 1..];
    assert k < |rest| ==> rest[k + 1..] == order[k + 2..];
    if i < |later| {
      assert contest[n + i] == later[i] && contest[n + i + 1..] == later[i + 1..];
      if later[i].Asked? {
        SameAdmitted(b, s, RestOfList(later[i + 1..]), PENDING_CAPACITY - |rest[k..]|);
      }
    }
    hide RestOfList, AdmittedOf, RequestsOf;
  }

  /** Whatever the callbacks submit and however the port answers, the winner of the contest is next. */
  lemma {:induction false} EndedServes(b: Bus, ended: Transaction, result: TransactionResult)
    requires b.active.None? && QueueOk(b) && Registered(b, ended)
    ensures NextIs(b, ended, result, Ended(b, ended, result))
    decreases |b.pending|
  {
    var rs := FirstList(b.world.reactions);
    hide QueueOk, Registered, Contest, InOrder, AskedAll, NextIs, Notify, StartNext, Ended, OnlyAsked, Removed, Best, Start, Told;
    if Winner(b, b.world.portAnswers, AskedAll(rs)) < |rs| {
      CallbackWins(b, ended, result);
    } else if b.pending == [] {
      NobodyLeft(b, ended, result);
    } else {
      var idle := CallbackLoses(b, ended, result);
      if Start(idle.(pending := Removed(b.pending, Best(b.pending))), b.pending[Best(b.pending)]).active.Some? {
        BestWins(b, ended, result, idle);
      } else {
        var s, t := BestLoses(b, ended, result, idle);
        EndedServes(s, t, TxFailed);
        LoserFirst(b, ended, result, idle, s, t);
        LiftNext(b, ended, result, s, t, Ended(s, t, TxFailed));
      }
    }
  }

  lemma LoserFirst(b: Bus, ended: Transaction, result: TransactionResult, idle: Bus, s: Bus, t: Transaction)
    requires b.active.None? && b.pending != [] && t == b.pending[Best(b.pending)] && s.active.None?
    requires var rs := FirstList(b.world.reactions);
      && Winner(b, b.world.portAnswers, AskedAll(rs)) == |rs|
      && OnlyAsked(Told(b, ended, result), idle, AnswersAfter(b, b.world.portAnswers, AskedAll(rs)))
    requires s == Start(idle.(pending := Removed(b.pending, Best(b.pending))), t)
    ensures var rs := FirstList(b.world.reactions); var later := Contest(s.world.reactions, InOrder(s.pending));
      Winner(b, b.world.portAnswers, AskedAll(rs) + ([Queued(t)] + later)) == |rs| + 1 + Winner(b, s.world.portAnswers, later)
  {
    var rs := FirstList(b.world.reactions);
    var later := Contest(s.world.reactions, InOrder(s.pending));
    BestAnswers(b, ended, result, idle, t, [Queued(t)] + later);
    assert ([Queued(t)] + later)[1..] == later;
    hide *;
    WinnerAppend(b, b.world.portAnswers, AskedAll(rs), [Queued(t)] + later);
  }

  // ---------- The four ways in which the active transfer ends ----------

  /** It completes, it is overdue, or the bus is recovered. */
  lemma EndServes(b: Bus, c: TxCompletion, now: uint64)
    requires Inv(b) && b.active.Some?
    ensures Current(b, c) ==> NextIs(b.(active := None), b.active.value, c.result, Complete(b, c).0)
    ensures now >= b.active.value.request.deadline ==> NextIs(Aborted(b), b.active.value, TxTimeout, Tick(b, now).0)
    ensures NextIs(Aborted(b), b.active.value, TxCancelled, Recover(b))
  {
    EndKeeps(b);
    assert QueueOk(b.(active := None)) && QueueOk(Aborted(b));
    assert Ended(b.(active := None), b.active.value, c.result) == StartNext(Notify(b.(active := None), b.active.value, c.result));
    hide QueueOk, Partition, Registered, NextIs, Notify, StartNext;
    EndedServes(b.(active := None), b.active.value, c.result);
    EndedServes(Aborted(b), b.active.value, TxTimeout);
    EndedServes(Aborted(b), b.active.value, TxCancelled);
  }

  /** Those of another client. */
  function OthersOf(ts: seq<Transaction>, client: uint32): seq<Transaction> {
    if ts == [] then []
    else (if ts[0].request.clientId != client then [ts[0]] else []) + OthersOf(ts[1..], client)
  }

  lemma {:induction false} OthersAppend(a: seq<Transaction>, b: seq<Transaction>, client: uint32)
    ensures OthersOf(a + b, client) == OthersOf(a, client) + OthersOf(b, client)
    decreases |a|
  {
    if a == [] {
      assert a + b == b;
    } else {
      assert (a + b)[1..] == a[1..] + b;
      OthersAppend(a[1..], b, client);
    }
  }

  lemma {:induction false} OnlyOthers(ts: seq<Transaction>, client: uint32)
    requires forall p :: p in ts ==> p.request.clientId != client
    ensures OthersOf(ts, client) == ts
  {
    if ts != [] {
      OnlyOthers(ts[1..], client);
    }
  }

  lemma OthersWithout(ts: seq<Transaction>, client: uint32, i: nat)
    requires i < |ts| && ts[i].request.clientId == client
    ensures OthersOf(Removed(ts, i), client) == OthersOf(ts, client)
  {
    var (front, back) := (ts[..i], ts[i + 1..]);
    assert ts == front + ([ts[i]] + back);
    OthersAppend(front, [ts[i]] + back, client);
    OthersAppend(front, back, client);
    assert ([ts[i]] + back)[1..] == back;
    assert OthersOf([ts[i]] + back, client) == OthersOf(back, client);
    hide OthersOf;
  }

  /** Cancelling the waiting transfers of a client, under the transfer that is active: each of them, also one that a
      callback adds, is reported cancelled; the others keep their order, and what callbacks add comes behind them. */
  ghost predicate Swept(b: Bus, client: uint32, c: Bus) {
    && c.active == b.active && c.generation == b.generation && c.clients == b.clients
    && (forall p :: p in c.pending ==> p.request.clientId != client)
    && OthersOf(b.pending, client) <= c.pending
    && b.world.notified <= c.world.notified
    && (forall p :: p in b.pending && p.request.clientId == client ==> CompletionOf(p, TxCancelled) in c.world.notified)
  }

  lemma {:induction false} CancelSweeps(b: Bus, client: uint32, i: nat)
    requires CoreInv(b, multiset{}) && b.active.Some? && i <= |b.pending|
    requires forall k :: 0 <= k < i ==> b.pending[k].request.clientId != client
    ensures CoreInv(CancelPending(b, client, i), multiset{}) && Swept(b, client, CancelPending(b, client, i))
    decreases |b.world.reactions|, |b.pending| - i
  {
    CancelPendingKeeps(b, client, i);
    var c := CancelPending(b, client, i);
    assert i == |b.pending| ==> c == b;
    assert i < |b.pending| ==> c == if b.pending[i].request.clientId != client then CancelPending(b, client, i + 1)
      else CancelPending(Notify(b.(pending := Removed(b.pending, i)), b.pending[i], TxCancelled), client, i);
    hide CoreInv, Notify, Swept, CancelPending;
    if i == |b.pending| {
      OnlyOthers(b.pending, client);
      NothingToSweep(b, client);
    } else if b.pending[i].request.clientId != client {
      CancelSweeps(b, client, i + 1);
    } else {
      var n := SweepOne(b, client, i);
      hide Removed;
      CancelSweeps(n, client, i);
      SweptOneMore(b, client, i, n, CancelPending(n, client, i));
    }
  }

  lemma SweepOne(b: Bus, client: uint32, i: nat) returns (n: Bus)
    requires CoreInv(b, multiset{}) && b.active.Some? && i < |b.pending| && b.pending[i].request.clientId == client
    requires forall k :: 0 <= k < i ==> b.pending[k].request.clientId != client
    ensures n == Notify(b.(pending := Removed(b.pending, i)), b.pending[i], TxCancelled)
    ensures CoreInv(n, multiset{}) && n.active == b.active && n.generation == b.generation && n.clients == b.clients
    ensures i <= |n.pending| && forall k :: 0 <= k < i ==> n.pending[k].request.clientId != client
    ensures var rest := Removed(b.pending, i); |rest| <= |n.pending| && n.pending[..|rest|] == rest
    ensures n.world.notified == b.world.notified + [CompletionOf(b.pending[i], TxCancelled)]
    ensures |n.world.reactions| < |b.world.reactions| || (n.world.reactions == b.world.reactions && |n.pending| < |b.pending|)
  {
    var t := b.pending[i];
    var without := b.(pending := Removed(b.pending, i));
    RemovedEntries(b.pending, i);
    RemoveKeeps(b, i, multiset{});
    NotifyKeeps(without, t, TxCancelled, multiset{});
    n := Notify(without, t, TxCancelled);
    assert |without.pending| <= PENDING_CAPACITY;
    hide CoreInv, Notify, Removed, Registered;
    BusyNotify(without, t);
    assert forall k :: 0 <= k < i ==> n.pending[k] == n.pending[..|without.pending|][k];
  }

  /** The number that cancelling returns counts the reports of waiting transfers. */
  lemma {:induction false} SweepCountsReports(b: Bus, client: uint32, i: nat)
    requires CoreInv(b, multiset{}) && b.active.Some? && i <= |b.pending|
    requires forall k :: 0 <= k < i ==> b.pending[k].request.clientId != client
    ensures |CancelPending(b, client, i).world.notified| == |b.world.notified| + PendingCancelled(b, client, i)
    decreases |b.world.reactions|, |b.pending| - i
  {
    if i < |b.pending| {
      if b.pending[i].request.clientId != client {
        hide CoreInv, Notify;
        SweepCountsReports(b, client, i + 1);
      } else {
        var n := SweepOne(b, client, i);
        hide CoreInv, Notify, Removed;
        SweepCountsReports(n, client, i);
      }
    }
  }

  lemma NothingToSweep(b: Bus, client: uint32)
    requires forall k :: 0 <= k < |b.pending| ==> b.pending[k].request.clientId != client
    requires OthersOf(b.pending, client) == b.pending
    ensures Swept(b, client, b)
  {
  }

  /** A report while another transfer is active. */
  lemma BusyNotify(b: Bus, t: Transaction)
    requires b.active.Some? && Registered(b, t) && |b.pending| <= PENDING_CAPACITY
    ensures var n := Notify(b, t, TxCancelled);
      && n.active == b.active && n.generation == b.generation && n.clients == b.clients
      && |b.pending| <= |n.pending| && n.pending[..|b.pending|] == b.pending
      && n.world.notified == b.world.notified + [CompletionOf(t, TxCancelled)]
  {
    NotifyIsTold(b, t, TxCancelled);
    BusyCallback(Told(b, t, TxCancelled), FirstList(b.world.reactions));
    SubmitAllExtends(Told(b, t, TxCancelled), FirstList(b.world.reactions));
    hide SubmitAll, Notify, FindClient, AdmittedOf, RequestsOf;
  }

  lemma SweptOneMore(b: Bus, client: uint32, i: nat, n: Bus, c: Bus)
    requires i < |b.pending| && b.pending[i].request.clientId == client && Swept(n, client, c)
    requires n.active == b.active && n.generation == b.generation && n.clients == b.clients
    requires var rest := Removed(b.pending, i); |rest| <= |n.pending| && n.pending[..|rest|] == rest
    requires n.world.notified == b.world.notified + [CompletionOf(b.pending[i], TxCancelled)]
    ensures Swept(b, client, c)
  {
    var rest := Removed(b.pending, i);
    OthersWithout(b.pending, client, i);
    assert n.pending == rest + n.pending[|rest|..];
    OthersAppend(rest, n.pending[|rest|..], client);
    hide OthersOf;
    assert CompletionOf(b.pending[i], TxCancelled) in n.world.notified;
    forall p | p in b.pending && p.request.clientId == client
      ensures CompletionOf(p, TxCancelled) in c.world.notified
    {
      var k :| 0 <= k < |b.pending| && b.pending[k] == p;
      StillThere(b.pending, n.pending, i, k);
    }
    hide Removed;
  }

  lemma StillThere(before: seq<Transaction>, after: seq<Transaction>, i: nat, k: nat)
    requires i < |before| && k < |before| && |before| - 1 <= |after| && after[..|before| - 1] == Removed(before, i)
    ensures k != i ==> before[k] in after
  {
    if k != i {
      var at := if k < i then k else k - 1;
      assert after[at] == after[..|before| - 1][at] == before[k];
    }
  }

  /** Cancelling a client: its waiting transfers first; if the active one is its own too, that one ends as well, and the
      contest among what is left decides who is next. */
  lemma CancelServes(b: Bus, client: uint32)
    requires Inv(b)
    ensures b.active.None? ==> CancelClient(b, client) == b
    ensures b.active.Some? ==>
      var c := CancelPending(b, client, 0);
      && Swept(b, client, c)
      && if b.active.value.request.clientId == client then
           NextIs(Aborted(c), b.active.value, TxCancelled, CancelClient(b, client))
         else CancelClient(b, client) == c
  {
    if b.active.Some? {
      CancelSweeps(b, client, 0);
      var c := CancelPending(b, client, 0);
      assert c.active == b.active;
      EndKeeps(c);
      assert QueueOk(Aborted(c));
      hide CoreInv, QueueOk, Registered, NextIs, Notify, StartNext, CancelPending, Swept, Aborted;
      if b.active.value.request.clientId == client {
        EndedServes(Aborted(c), b.active.value, TxCancelled);
      }
    } else {
      assert b.pending == [];
      hide CoreInv;
    }
  }

  /** A matching completion, a tick past the deadline, a recovery and the cancellation of its client report the transfer
      they end. */
  lemma EndIsReported(b: Bus, c: TxCompletion, now: uint64, client: uint32)
    requires Inv(b) && b.active.Some?
    ensures Current(b, c) ==>
      b.world.notified + [CompletionOf(b.active.value, c.result)] <= Complete(b, c).0.world.notified
    ensures now >= b.active.value.request.deadline ==>
      b.world.notified + [CompletionOf(b.active.value, TxTimeout)] <= Tick(b, now).0.world.notified
    ensures b.world.notified + [CompletionOf(b.active.value, TxCancelled)] <= Recover(b).world.notified
    ensures client == b.active.value.request.clientId ==>
      CompletionOf(b.active.value, TxCancelled) in CancelClient(b, client).world.notified
  {
    EndExtends(b.(active := None), b.active.value, c.result);
    EndExtends(Aborted(b), b.active.value, TxTimeout);
    EndExtends(Aborted(b), b.active.value, TxCancelled);
    CancelServes(b, client);
    hide StartNext, Notify, Partition, InOrder, Contest, Winner, Placed, CancelPending, CancelClient, Swept, Failures;
  }

  // ---------- When the best waiting transfer gets the bus ----------

  /** The best waiting transfer is next if and only if the callback of the ended one starts nothing, nothing but the port
      stands in its way, and the port takes it. If the callback starts something, that is what is active, everything that
      waited still waits, and the rest of the callback's list queues up behind it. */
  lemma BestGetsBusIff(b: Bus, extra: multiset<nat>, ended: Transaction, result: TransactionResult, d: Bus)
    requires CoreInv(b, extra) && b.active.None? && b.pending != [] && NextIs(b, ended, result, d)
    ensures var rs := FirstList(b.world.reactions); var best := b.pending[Best(b.pending)];
      var j := Winner(b, b.world.portAnswers, AskedAll(rs));
      var answers := AnswersAfter(b, b.world.portAnswers, AskedAll(rs));
      && (d.active == Some(best.(busGeneration := b.generation)) <==>
            j == |rs| && Startable(b, best.request) && answers != [] && answers[0])
      && (j < |rs| ==> d.active.Some? && d.active.value.request == rs[j]
                       && Remaining(b, InOrder(b.pending), rs[j + 1..], d.pending))
  {
    var rs := FirstList(b.world.reactions);
    var order := InOrder(b.pending);
    var contest := Contest(b.world.reactions, order);
    var best := b.pending[Best(b.pending)];
    var answers := AnswersAfter(b, b.world.portAnswers, AskedAll(rs));
    hide *;
    var j, k := NextMeans(b, ended, result, d);
    var back := BestInContest(b, extra, answers);
    AskedFirst(b, contest, rs, back);
    if Winner(b, b.world.portAnswers, AskedAll(rs)) < |rs| {
      AskedIsActive(b, contest, j, order, k, d, rs);
    } else if Winner(b, answers, back) == 0 {
      assert contest[..|rs|] == AskedAll(rs) && contest[|rs|] == Queued(best);
      QueuedInAsked(rs);
      BestIsActive(b, contest, j, order, d);
    } else {
      LaterIsAnother(b, contest, rs, j, order, k, d);
    }
  }

  /** The contest with a transfer waiting: after the callback's list comes the best one. */
  lemma BestInContest(b: Bus, extra: multiset<nat>, answers: seq<bool>) returns (back: seq<Contender>)
    requires CoreInv(b, extra) && b.pending != []
    ensures var (order, best) := (InOrder(b.pending), b.pending[Best(b.pending)]);
      && order != [] && order[0] == best && Ordered(order) && best.admission < b.nextAdmission
      && back != [] && back[0] == Queued(best)
      && Contest(b.world.reactions, order) == AskedAll(FirstList(b.world.reactions)) + back
      && (Winner(b, answers, back) == 0 <==> Startable(b, best.request) && answers != [] && answers[0])
  {
    var order := InOrder(b.pending);
    BestOfOrder(b);
    InOrderIsSorted(b);
    back := [Queued(order[0])] + Contest(LaterLists(b.world.reactions), order[1..]);
    hide InOrder, AskedAll, Partition, Best, Startable, Removed;
  }

  lemma AskedIsActive(b: Bus, contest: seq<Contender>, j: nat, order: seq<Transaction>, k: nat, d: Bus, rs: seq<BusRequest>)
    requires Placed(b, contest, j, order, k, d) && k == 0 && j < |rs| && j < |contest| && contest[j] == Asked(rs[j])
    requires RestOfList(contest[j + 1..]) == rs[j + 1..]
    ensures d.active.Some? && d.active.value.request == rs[j] && d.active.value.admission >= b.nextAdmission
    ensures Remaining(b, order, rs[j + 1..], d.pending)
  {
    assert order[0..] == order;
    hide Remaining, RestOfList;
  }

  lemma BestIsActive(b: Bus, contest: seq<Contender>, j: nat, order: seq<Transaction>, d: Bus)
    requires Placed(b, contest, j, order, 0, d) && j < |contest| && order != [] && contest[j] == Queued(order[0])
    ensures d.active == Some(order[0].(busGeneration := b.generation))
  {
  }

  /** A winner behind the best waiting transfer is not that transfer. */
  lemma LaterIsAnother(b: Bus, contest: seq<Contender>, rs: seq<BusRequest>, j: nat, order: seq<Transaction>, k: nat, d: Bus)
    requires |rs| < j <= |contest| && contest[|rs|].Queued? && k == QueuedIn(contest[..j])
    requires order != [] && Ordered(order) && order[0].admission < b.nextAdmission && Placed(b, contest, j, order, k, d)
    ensures d.active != Some(order[0].(busGeneration := b.generation))
  {
    assert contest[..j] == contest[..|rs|] + ([contest[|rs|]] + contest[|rs| + 1..j]);
    QueuedInAppend(contest[..|rs|], [contest[|rs|]] + contest[|rs| + 1..j]);
    assert k >= 1;
    hide QueuedIn, Remaining;
    assert k < |order| ==> I2cBusManager.Before(order[0], order[k]);
  }
}
