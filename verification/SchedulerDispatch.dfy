/** What a dispatch of monotonic_scheduler.c does to each job: which ones fire, which ones move on, and what becomes of a
    job that has fired and has not been acknowledged. */
module SchedulerDispatch {
  import opened Bits
  import opened Sequences
  import opened StorageRecord
  import opened Scheduler

  predicate IsDue(j: Job, now: uint64) {
    j.deadline <= now
  }

  predicate Fires(j: Job, now: uint64) {
    IsDue(j, now) && !j.pending
  }

  /** A job kept waiting by the acknowledgement of an earlier event. */
  predicate Unacknowledged(j: Job) {
    j.pending && j.policy != Skip
  }

  /** What is left of a job that the dispatch looks at: it is untouched, it has moved on, or it is gone. */
  function Left(j: Job, now: uint64): seq<Job> {
    if !IsDue(j, now) || Unacknowledged(j) then [j]
    else if j.period > 0 then [Rescheduled(j, now, !j.pending)]
    else []
  }

  /** The events of the jobs that would fire, in their order. */
  function Firing(jobs: seq<Job>, now: uint64): seq<DueEvent> {
    if jobs == [] then []
    else if Fires(jobs[0], now) then [Due(jobs[0])] + Firing(jobs[1..], now)
    else Firing(jobs[1..], now)
  }

  /** The jobs that are left after the dispatch, as long as there is room. */
  function LeftAll(jobs: seq<Job>, now: uint64, room: nat): seq<Job> {
    if jobs == [] || room == 0 then jobs
    else Left(jobs[0], now) + LeftAll(jobs[1..], now, if Fires(jobs[0], now) then room - 1 else room)
  }

  function FirstOf<T>(s: seq<T>, n: nat): seq<T> {
    if n <= |s| then s[..n] else s
  }

  /** The loop that removes and reschedules as it goes: it emits the events of the jobs that fire, as many as there is room
      for, and treats each job on its own. */
  lemma {:induction false} DispatchIs(jobs: seq<Job>, now: uint64, i: nat, room: nat)
    requires i <= |jobs|
    ensures Dispatch(jobs, now, i, room)
         == (jobs[..i] + LeftAll(jobs[i..], now, room), FirstOf(Firing(jobs[i..], now), room))
    decreases |jobs| - i
  {
    if i == |jobs| || room == 0 {
      assert jobs[..i] + jobs[i..] == jobs;
    } else {
      hide *;
      var (j, rest, front) := (jobs[i], jobs[i + 1..], jobs[..i]);
      var less := if Fires(j, now) then room - 1 else room;
      SplitAt(jobs, i);
      LookedAt(j, rest, now, room);
      Regrouped(front, Left(j, now), LeftAll(rest, now, less));
      DispatchHead(jobs, now, i, room);
      if !IsDue(j, now) || Unacknowledged(j) {
        DispatchIs(jobs, now, i + 1, room);
      } else {
        TurnedIs(jobs, now, i);
        DispatchIs(Turned(jobs, now, i), now, if j.period > 0 then i + 1 else i, less);
      }
    }
  }

  lemma SplitAt(jobs: seq<Job>, i: nat)
    requires i < |jobs|
    ensures jobs[i..] == [jobs[i]] + jobs[i + 1..] && jobs[..i + 1] == jobs[..i] + [jobs[i]]
  {
  }

  lemma Regrouped<T>(a: seq<T>, b: seq<T>, c: seq<T>)
    ensures a + (b + c) == (a + b) + c
  {
  }

  /** What the loop does with the job it looks at. */
  lemma DispatchHead(jobs: seq<Job>, now: uint64, i: nat, room: nat)
    requires i < |jobs| && room > 0
    ensures var j := jobs[i]; var less := if Fires(j, now) then room - 1 else room;
      if !IsDue(j, now) || Unacknowledged(j) then
        Dispatch(jobs, now, i, room) == Dispatch(jobs, now, i + 1, room) && !Fires(j, now) && Left(j, now) == [j]
      else
        var turned := Dispatch(Turned(jobs, now, i), now, if j.period > 0 then i + 1 else i, less);
        Dispatch(jobs, now, i, room) == (turned.0, if Fires(j, now) then [Due(j)] + turned.1 else turned.1)
  {
    hide Rescheduled, Removed;
  }

  lemma LookedAt(j: Job, rest: seq<Job>, now: uint64, room: nat)
    requires room > 0
    ensures var less := if Fires(j, now) then room - 1 else room;
      && LeftAll([j] + rest, now, room) == Left(j, now) + LeftAll(rest, now, less)
      && FirstOf(Firing([j] + rest, now), room)
         == if Fires(j, now) then [Due(j)] + FirstOf(Firing(rest, now), less) else FirstOf(Firing(rest, now), less)
  {
    assert ([j] + rest)[1..] == rest;
    FirstOfCons(Due(j), Firing(rest, now), room);
    hide Left, FirstOf;
  }

  lemma FirstOfCons<T>(e: T, s: seq<T>, n: nat)
    requires n > 0
    ensures FirstOf([e] + s, n) == [e] + FirstOf(s, n - 1)
  {
  }

  lemma TurnedIs(jobs: seq<Job>, now: uint64, i: nat)
    requires i < |jobs| && IsDue(jobs[i], now) && !Unacknowledged(jobs[i])
    ensures var next := if jobs[i].period > 0 then i + 1 else i;
      var t := Turned(jobs, now, i);
      next <= |t| && t[..next] == jobs[..i] + Left(jobs[i], now) && t[next..] == jobs[i + 1..]
  {
  }

  // ---------- Each job ----------

  /** The jobs of one scheduling. */
  function OfSerial(jobs: seq<Job>, serial: nat): seq<Job> {
    if jobs == [] then []
    else if jobs[0].serial == serial then [jobs[0]] + OfSerial(jobs[1..], serial)
    else OfSerial(jobs[1..], serial)
  }

  ghost predicate SerialsDistinct(jobs: seq<Job>) {
    forall a, b :: 0 <= a < b < |jobs| ==> jobs[a].serial != jobs[b].serial
  }

  lemma {:induction false} OfSerialNone(jobs: seq<Job>, now: uint64, room: nat, serial: nat)
    requires forall a :: 0 <= a < |jobs| ==> jobs[a].serial != serial
    ensures OfSerial(jobs, serial) == [] && OfSerial(LeftAll(jobs, now, room), serial) == []
    ensures forall e :: e in Firing(jobs, now) ==> e.serial != serial
    decreases |jobs|
  {
    if jobs != [] {
      var less := if room > 0 && Fires(jobs[0], now) then room - 1 else room;
      OfSerialNone(jobs[1..], now, less, serial);
      if room > 0 {
        OfSerialAfter(Left(jobs[0], now), LeftAll(jobs[1..], now, less), serial);
      }
    }
  }

  lemma OfSerialAfter(one: seq<Job>, rest: seq<Job>, serial: nat)
    requires |one| <= 1
    ensures OfSerial(one + rest, serial) == (if one != [] && one[0].serial == serial then one else []) + OfSerial(rest, serial)
  {
    if one == [] {
      assert one + rest == rest;
    } else {
      assert (one + rest)[1..] == rest && one == [one[0]];
    }
  }

  lemma {:induction false} FiringAppend(a: seq<Job>, b: seq<Job>, now: uint64)
    ensures Firing(a + b, now) == Firing(a, now) + Firing(b, now)
    decreases |a|
  {
    if a == [] {
      assert a + b == b;
    } else {
      assert (a + b)[0] == a[0] && (a + b)[1..] == a[1..] + b;
      FiringAppend(a[1..], b, now);
      Regrouped([Due(a[0])], Firing(a[1..], now), Firing(b, now));
      hide Fires, Due;
    }
  }

  lemma EventOutcome(jobs: seq<Job>, now: uint64, room: nat, a: nat)
    requires a < |jobs| && SerialsDistinct(jobs)
    ensures var events := FirstOf(Firing(jobs, now), room);
      && (Due(jobs[a]) in events <==> |Firing(jobs[..a], now)| < room && Fires(jobs[a], now))
      && forall e :: e in events && e.serial == jobs[a].serial ==> e == Due(jobs[a])
  {
    var (ahead, j, behind) := (jobs[..a], jobs[a], jobs[a + 1..]);
    assert jobs == ahead + ([j] + behind) && [j][1..] == [];
    FiringAppend(ahead, [j] + behind, now);
    FiringAppend([j], behind, now);
    OfSerialNone(ahead, now, 0, j.serial);
    OfSerialNone(behind, now, 0, j.serial);
    var one := if Fires(j, now) then [Due(j)] else [];
    assert Firing([j], now) == one;
    hide Firing, LeftAll, OfSerial, SerialsDistinct;
    AmongFirst(Firing(ahead, now), one, Firing(behind, now), room, j);
  }

  lemma AmongFirst(ahead: seq<DueEvent>, one: seq<DueEvent>, behind: seq<DueEvent>, room: nat, j: Job)
    requires one == [] || one == [Due(j)]
    requires forall e :: e in ahead || e in behind ==> e.serial != j.serial
    ensures var events := FirstOf(ahead + (one + behind), room);
      && (Due(j) in events <==> |ahead| < room && one != [])
      && forall e :: e in events && e.serial == j.serial ==> e == Due(j)
  {
    var (all, events) := (ahead + (one + behind), FirstOf(ahead + (one + behind), room));
    assert forall k :: 0 <= k < |events| ==> events[k] == all[k];
    forall k | 0 <= k < |events|
      ensures events[k].serial == j.serial ==> one != [] && k == |ahead| && events[k] == Due(j)
    {
      if k < |ahead| {
        assert all[k] == ahead[k] && ahead[k] in ahead;
      } else if k >= |ahead| + |one| {
        assert all[k] == behind[k - |ahead| - |one|] && behind[k - |ahead| - |one|] in behind;
      }
    }
    if one != [] && |ahead| < room {
      assert all[|ahead|] == Due(j) == events[|ahead|];
    }
  }

  lemma {:induction false} LeftOutcome(jobs: seq<Job>, now: uint64, room: nat, a: nat)
    requires a < |jobs| && SerialsDistinct(jobs)
    ensures OfSerial(LeftAll(jobs, now, room), jobs[a].serial)
         == if |Firing(jobs[..a], now)| < room then Left(jobs[a], now) else [jobs[a]]
    decreases a
  {
    var (j, rest, serial) := (jobs[0], jobs[1..], jobs[a].serial);
    var less := if room > 0 && Fires(j, now) then room - 1 else room;
    assert jobs == [j] + rest;
    OfSerialAfter([j], rest, serial);
    OfSerialAfter(Left(j, now), LeftAll(rest, now, less), serial);
    if a == 0 {
      OfSerialNone(rest, now, less, serial);
      assert Firing(jobs[..0], now) == [];
    } else {
      assert jobs[..a][1..] == rest[..a - 1] && jobs[..a][0] == j && j.serial != serial;
      assert |Firing(jobs[..a], now)| == |Firing(rest[..a - 1], now)| + if Fires(j, now) then 1 else 0;
      LeftOutcome(rest, now, less, a - 1);
      hide Firing, OfSerial, SerialsDistinct;
    }
    hide Rescheduled;
  }

  /** Of each job, by its position: its event comes out exactly if it is due, not pending, and there is room behind the
      events of the jobs ahead; and it is left as stated as long as there is that room, and untouched otherwise. */
  lemma JobOutcome(jobs: seq<Job>, now: uint64, room: nat, a: nat)
    requires a < |jobs| && SerialsDistinct(jobs)
    ensures var (after, events) := Dispatch(jobs, now, 0, room);
      var reached := |Firing(jobs[..a], now)| < room;
      && (Due(jobs[a]) in events <==> reached && Fires(jobs[a], now))
      && (forall e :: e in events && e.serial == jobs[a].serial ==> e == Due(jobs[a]))
      && OfSerial(after, jobs[a].serial) == if reached then Left(jobs[a], now) else [jobs[a]]
  {
    hide *;
    WholeDispatch(jobs, now, room);
    EventOutcome(jobs, now, room, a);
    LeftOutcome(jobs, now, room, a);
  }

  /** A due job whose policy is not SKIP emits one event and moves on, if and only if it is not pending and there is room;
      otherwise it stays as it is, with its old deadline. */
  lemma LateJobFiresIff(jobs: seq<Job>, now: uint64, room: nat, a: nat)
    requires a < |jobs| && SerialsDistinct(jobs) && IsDue(jobs[a], now) && jobs[a].policy != Skip
    ensures var (after, events) := Dispatch(jobs, now, 0, room); var j := jobs[a];
      var fires := !j.pending && |Firing(jobs[..a], now)| < room;
      && (Due(j) in events <==> fires)
      && (fires && j.period > 0 ==> OfSerial(after, j.serial) == [Rescheduled(j, now, true)])
      && (j.period > 0 && OnGrid(j) && now + j.period < UINT64_LIMIT ==> now < Rescheduled(j, now, true).deadline)
      && (fires && j.period == 0 ==> OfSerial(after, j.serial) == [])
      && (!fires ==> OfSerial(after, j.serial) == [j] && forall e :: e in events ==> e.serial != j.serial)
  {
    JobOutcome(jobs, now, room, a);
    if jobs[a].period > 0 && OnGrid(jobs[a]) && now + jobs[a].period < UINT64_LIMIT {
      RescheduledIsLater(jobs[a], now, true);
    }
    hide Dispatch, Firing, OfSerial, SerialsDistinct, Rescheduled, OnGrid;
  }

  lemma WholeDispatch(jobs: seq<Job>, now: uint64, room: nat)
    ensures Dispatch(jobs, now, 0, room) == (LeftAll(jobs, now, room), FirstOf(Firing(jobs, now), room))
  {
    DispatchIs(jobs, now, 0, room);
    assert jobs[0..] == jobs && jobs[..0] == [];
    assert [] + LeftAll(jobs, now, room) == LeftAll(jobs, now, room);
    hide Dispatch, LeftAll, Firing, FirstOf;
  }

  // ---------- Nothing due is left ----------

  /** After a dispatch that did not use up its room, every due job that was not pending has its event, and no job is due
      unless an earlier event of it is not acknowledged and its policy is not SKIP. */
  lemma NothingDueIsLeft(jobs: seq<Job>, now: uint64, room: nat)
    requires Unwrapped(jobs, now) && forall a :: 0 <= a < |jobs| ==> OnGrid(jobs[a])
    ensures var (after, events) := Dispatch(jobs, now, 0, room);
      |events| < room ==>
        && (forall a :: 0 <= a < |jobs| && Fires(jobs[a], now) ==> Due(jobs[a]) in events)
        && (forall j :: j in after && IsDue(j, now) ==> Unacknowledged(j) && j in jobs)
  {
    WholeDispatch(jobs, now, room);
    hide Dispatch, Unwrapped, OnGrid;
    if |FirstOf(Firing(jobs, now), room)| < room {
      assert FirstOf(Firing(jobs, now), room) == Firing(jobs, now);
      AllFire(jobs, now);
      NoneDue(jobs, now, room);
    }
    hide LeftAll, Firing, FirstOf;
  }

  lemma {:induction false} AllFire(jobs: seq<Job>, now: uint64)
    ensures forall a :: 0 <= a < |jobs| && Fires(jobs[a], now) ==> Due(jobs[a]) in Firing(jobs, now)
    decreases |jobs|
  {
    if jobs != [] {
      AllFire(jobs[1..], now);
      assert forall a :: 0 < a < |jobs| ==> jobs[a] == jobs[1..][a - 1];
    }
  }

  lemma {:induction false} NoneDue(jobs: seq<Job>, now: uint64, room: nat)
    requires Unwrapped(jobs, now) && (forall a :: 0 <= a < |jobs| ==> OnGrid(jobs[a])) && |Firing(jobs, now)| < room
    ensures forall j :: j in LeftAll(jobs, now, room) && IsDue(j, now) ==> Unacknowledged(j) && j in jobs
    decreases |jobs|
  {
    hide OnGrid;
    if jobs != [] {
      var (j, rest) := (jobs[0], jobs[1..]);
      var less := if Fires(j, now) then room - 1 else room;
      NoneDue(rest, now, less);
      LeftIsNotDue(j, now);
      assert forall k :: k in LeftAll(jobs, now, room) ==> k in Left(j, now) || k in LeftAll(rest, now, less);
    }
  }

  lemma LeftIsNotDue(j: Job, now: uint64)
    requires OnGrid(j) && now + j.period < UINT64_LIMIT
    ensures forall k :: k in Left(j, now) && IsDue(k, now) ==> Unacknowledged(k) && k == j
  {
    if IsDue(j, now) && j.period > 0 {
      RescheduledIsLater(j, now, !j.pending);
    }
    hide OnGrid, Rescheduled;
  }

  // ---------- Until it is acknowledged ----------

  predicate LeavesAlone(c: Call, id: uint16) {
    match c
    case CancelCall(other, _) => other != id
    case AcknowledgeCall(other, _) => other != id
    case _ => true
  }

  lemma StepKeepsUnacknowledged(t: Timeline, c: Call, j: Job)
    requires Inv(t) && Possible(t, c) && j in t.jobs && Unacknowledged(j) && LeavesAlone(c, j.id)
    ensures var u := Step(t, c);
      && j in u.jobs && |t.fired| <= |u.fired| && u.fired[..|t.fired|] == t.fired
      && forall f :: |t.fired| <= f < |u.fired| ==> u.fired[f].serial != j.serial
  {
    hide OnGrid, FiredEarlier, FiredOnce, Dispatch, FindJob, Removed, NextAnchored;
    var a :| 0 <= a < |t.jobs| && t.jobs[a] == j;
    match c
    case OneShotCall(_, _) => assert forall other: Job :: (t.jobs + [other])[a] == j;
    case PeriodicCall(_, _, _, _) => assert forall other: Job :: (t.jobs + [other])[a] == j;
    case CancelCall(id, _) =>
      var i := FindJob(t.jobs, id);
      if i < |t.jobs| {
        RemovedEntries(t.jobs, i);
        assert Removed(t.jobs, i)[if a < i then a else a - 1] == j;
      }
    case AcknowledgeCall(id, _) =>
      var i := FindJob(t.jobs, id);
      assert i < |t.jobs| ==> t.jobs[i := t.jobs[i].(pending := false)][a] == j;
    case DispatchCall(now, maxEvents) =>
      JobOutcome(t.jobs, now, maxEvents, a);
      var (after, events) := Dispatch(t.jobs, now, 0, maxEvents);
      StillIn(after, j);
      assert j in after && forall e :: e in events ==> e.serial != j.serial by { hide Firing, OfSerial; }
      hide Firing, OfSerial;
      assert forall f :: |t.fired| <= f < |t.fired + events| ==> (t.fired + events)[f] in events;
  }

  lemma {:induction false} StillIn(jobs: seq<Job>, j: Job)
    ensures OfSerial(jobs, j.serial) == [j] ==> j in jobs
    decreases |jobs|
  {
    if jobs != [] {
      StillIn(jobs[1..], j);
      assert jobs[0].serial == j.serial ==> OfSerial(jobs, j.serial)[0] == jobs[0];
    }
  }

  /** Over every run without an acknowledgement or a cancellation of its name: a job of another policy than SKIP whose event
      is not acknowledged stays as it is, with its deadline, and emits nothing. */
  lemma {:induction false} KeptUntilAcknowledged(t: Timeline, calls: seq<Call>, end: Timeline, j: Job)
    requires Inv(t) && IsRun(t, calls, end) && j in t.jobs && Unacknowledged(j)
    requires forall c :: c in calls ==> LeavesAlone(c, j.id)
    ensures j in end.jobs && |t.fired| <= |end.fired| && end.fired[..|t.fired|] == t.fired
    ensures forall f :: |t.fired| <= f < |end.fired| ==> end.fired[f].serial != j.serial
    decreases |calls|
  {
    hide Inv, Step, Possible, Unacknowledged, LeavesAlone;
    if calls != [] {
      assert calls[0] in calls && forall c :: c in calls[1..] ==> c in calls;
      var u := Step(t, calls[0]);
      Scheduler.StepKeeps(t, calls[0]);
      StepKeepsUnacknowledged(t, calls[0], j);
      KeptUntilAcknowledged(u, calls[1..], end, j);
      assert end.fired[..|t.fired|] == end.fired[..|u.fired|][..|t.fired|];
      assert forall f :: |t.fired| <= f < |u.fired| ==> end.fired[f] == end.fired[..|u.fired|][f];
    }
  }

  /** Once it is acknowledged, the next dispatch with room that finds it due emits its event, for the old boundary. */
  lemma FiresOnceAcknowledged(jobs: seq<Job>, a: nat, now: uint64, room: nat)
    requires a < |jobs| && SerialsDistinct(jobs) && Unacknowledged(jobs[a]) && FindJob(jobs, jobs[a].id) == a
    requires IsDue(jobs[a], now)
    ensures var j := jobs[a];
      var (acknowledged, done) := Acknowledge(jobs, j.id, j.generation);
      var (after, events) := Dispatch(acknowledged, now, 0, room);
      && done && (|Firing(jobs[..a], now)| < room ==>
           && Due(j) in events && Due(j).boundary == j.deadline
           && OfSerial(after, j.serial) == if j.period > 0 then [Rescheduled(j, now, true)] else [])
  {
    var j := jobs[a];
    var acknowledged := jobs[a := j.(pending := false)];
    assert acknowledged[..a] == jobs[..a] && Due(acknowledged[a]) == Due(j);
    assert Rescheduled(acknowledged[a], now, true) == Rescheduled(j, now, true);
    hide FindJob, Rescheduled, NextAnchored;
    LateJobFiresIff(acknowledged, now, room, a);
  }
}
