/** The deadline scheduler of monotonic_scheduler.c: periodic jobs stay on the grid of their anchor. */
module Scheduler {
  import opened Bits
  import opened Sequences
  import opened StorageRecord

  const MAX_JOBS: nat := 16
  const UINT64_LIMIT: nat := 0x1_0000_0000_0000_0000

  datatype MissPolicy = Skip | SignalOnce | OwnerSpecific

  datatype ScheduleResult = ScheduleOk | RejectedInvalidPeriod | RejectedDuplicateId | RejectedFull | Cancelled | NotFound

  /** serial names one scheduling of a job, for the statements only: a job identifier may be scheduled again. */
  datatype Job = Job(
    id: uint16, owner: uint32, event: nat, deadline: uint64, anchor: uint64, period: uint64, generation: uint32,
    policy: MissPolicy, priority: nat, pending: bool, serial: nat)

  datatype DueEvent = DueEvent(
    event: nat, owner: uint32, priority: nat, id: uint16, generation: uint32, serial: nat,
    boundary: uint64, period: uint64)

  // ---------- The next deadline ----------

  /** next_anchored, in 64-bit arithmetic. */
  function NextAnchored(anchor: uint64, period: uint64, now: uint64): uint64 {
    if period == 0 || anchor > now then anchor
    else
      var next := (anchor + ((now - anchor) / period + 1) * period) % UINT64_LIMIT;
      if next < anchor then now else next
  }

  /** The number of periods from the anchor to the first boundary after now. */
  function Boundary(anchor: nat, period: nat, now: nat): nat
    requires period > 0 && anchor <= now
  {
    (now - anchor) / period + 1
  }

  lemma BoundaryIsNext(anchor: nat, period: nat, now: nat)
    requires period > 0 && anchor <= now
    ensures now < anchor + Boundary(anchor, period, now) * period <= now + period
  {
    var q := (now - anchor) / period;
    assert now - anchor == q * period + (now - anchor) % period;
    assert (q + 1) * period == q * period + period;
  }

  /** Rescheduling lands on the grid, in (now, now + period], exactly when that boundary still fits in 64 bits. */
  lemma NextAnchoredIff(anchor: uint64, period: uint64, now: uint64)
    requires period > 0 && anchor <= now
    ensures var next := anchor + Boundary(anchor, period, now) * period;
      && (now < NextAnchored(anchor, period, now) <= now + period <==> next < UINT64_LIMIT)
      && (next < UINT64_LIMIT ==> NextAnchored(anchor, period, now) == next)
  {
    BoundaryIsNext(anchor, period, now);
    var next := anchor + Boundary(anchor, period, now) * period;
    if next >= UINT64_LIMIT {
      assert next % UINT64_LIMIT == next - UINT64_LIMIT;
    }
  }

  /** The deadline is a whole number of periods after the anchor. */
  ghost predicate OnGrid(j: Job) {
    j.period > 0 ==> exists k: nat :: j.deadline == Grid(j.anchor, j.period, k)
  }

  function Grid(anchor: nat, period: nat, k: nat): nat { anchor + k * period }

  // ---------- Scheduling ----------

  function FindJob(jobs: seq<Job>, id: uint16): (at: nat)
    ensures at <= |jobs| && (at < |jobs| ==> jobs[at].id == id)
    ensures forall k :: 0 <= k < at ==> jobs[k].id != id
  {
    if jobs == [] || jobs[0].id == id then 0 else FindJob(jobs[1..], id) + 1
  }

  /** scheduler_schedule_one_shot and scheduler_schedule_periodic: a new job, if there is room and its name is free. */
  function Added(jobs: seq<Job>, j: Job): (seq<Job>, ScheduleResult) {
    if |jobs| >= MAX_JOBS then (jobs, RejectedFull)
    else if FindJob(jobs, j.id) < |jobs| then (jobs, RejectedDuplicateId)
    else (jobs + [j], ScheduleOk)
  }

  function OneShot(jobs: seq<Job>, j: Job, deadline: uint64): (seq<Job>, ScheduleResult) {
    Added(jobs, j.(deadline := deadline, anchor := deadline, period := 0, policy := Skip, pending := false))
  }

  function Periodic(jobs: seq<Job>, j: Job, anchor: uint64, period: uint64, now: uint64): (seq<Job>, ScheduleResult) {
    if period == 0 then (jobs, RejectedInvalidPeriod)
    else Added(jobs, j.(anchor := anchor, period := period, deadline := NextAnchored(anchor, period, now), pending := false))
  }

  function Cancel(jobs: seq<Job>, id: uint16, generation: uint32): (seq<Job>, ScheduleResult) {
    var i := FindJob(jobs, id);
    if i == |jobs| || jobs[i].generation != generation then (jobs, NotFound) else (Removed(jobs, i), Cancelled)
  }

  function Acknowledge(jobs: seq<Job>, id: uint16, generation: uint32): (seq<Job>, bool) {
    var i := FindJob(jobs, id);
    if i == |jobs| || jobs[i].generation != generation || !jobs[i].pending then (jobs, false)
    else (jobs[i := jobs[i].(pending := false)], true)
  }

  // ---------- Dispatch ----------

  function Due(j: Job): DueEvent {
    DueEvent(j.event, j.owner, j.priority, j.id, j.generation, j.serial, j.deadline, j.period)
  }

  function Rescheduled(j: Job, now: uint64, pending: bool): Job {
    j.(deadline := NextAnchored(j.anchor, j.period, now), pending := pending)
  }

  /** scheduler_dispatch_due, from job i on with room for so many events. */
  function Dispatch(jobs: seq<Job>, now: uint64, i: nat, room: nat): (seq<Job>, seq<DueEvent>)
    decreases |jobs| - i
  {
    if i >= |jobs| || room == 0 then (jobs, [])
    else
      var j := jobs[i];
      if j.deadline > now then Dispatch(jobs, now, i + 1, room)
      else if j.pending then
        if j.policy != Skip then Dispatch(jobs, now, i + 1, room)
        else if j.period > 0 then Dispatch(jobs[i := Rescheduled(j, now, false)], now, i + 1, room)
        else Dispatch(Removed(jobs, i), now, i, room)
      else
        var rest := if j.period > 0 then Dispatch(jobs[i := Rescheduled(j, now, true)], now, i + 1, room - 1)
                    else Dispatch(Removed(jobs, i), now, i, room - 1);
        (rest.0, [Due(j)] + rest.1)
  }

  // ---------- What every job and every event keeps ----------

  /** The jobs, every event so far, and the number of schedulings. */
  datatype Timeline = Timeline(jobs: seq<Job>, fired: seq<DueEvent>, scheduled: nat)

  ghost predicate JobsOk(t: Timeline) {
    && (forall a :: 0 <= a < |t.jobs| ==> OnGrid(t.jobs[a]) && t.jobs[a].serial < t.scheduled)
    && (forall a, b :: 0 <= a < b < |t.jobs| ==> t.jobs[a].serial != t.jobs[b].serial)
  }

  /** Every event of a job that is still scheduled belongs to an earlier boundary of it. */
  predicate FiredEarlier(t: Timeline) {
    && (forall f :: 0 <= f < |t.fired| ==> t.fired[f].serial < t.scheduled)
    && (forall f, a :: 0 <= f < |t.fired| && 0 <= a < |t.jobs| && t.fired[f].serial == t.jobs[a].serial ==>
          t.fired[f].boundary < t.jobs[a].deadline && t.jobs[a].period > 0)
  }

  /** No boundary of a scheduling fired twice, and a one-shot fired once. */
  predicate FiredOnce(fired: seq<DueEvent>) {
    forall f, g :: 0 <= f < g < |fired| && fired[f].serial == fired[g].serial ==>
      fired[f].boundary < fired[g].boundary && fired[g].period > 0
  }

  ghost predicate Inv(t: Timeline) {
    JobsOk(t) && FiredEarlier(t) && FiredOnce(t.fired)
  }

  /** The clock is not within a period of wrapping. */
  predicate Unwrapped(jobs: seq<Job>, now: uint64) {
    forall a :: 0 <= a < |jobs| ==> now + jobs[a].period < UINT64_LIMIT
  }

  lemma RescheduledIsLater(j: Job, now: uint64, pending: bool)
    requires OnGrid(j) && j.period > 0 && j.deadline <= now && now + j.period < UINT64_LIMIT
    ensures var r := Rescheduled(j, now, pending);
      && OnGrid(r) && now < r.deadline <= now + j.period && r.deadline > j.deadline
  {
    var k: nat :| j.deadline == Grid(j.anchor, j.period, k);
    assert k * j.period >= 0;
    NextAnchoredIff(j.anchor, j.period, now);
    BoundaryIsNext(j.anchor, j.period, now);
    var n := Boundary(j.anchor, j.period, now);
    assert NextAnchored(j.anchor, j.period, now) == Grid(j.anchor, j.period, n);
  }

  lemma MovedKeeps(t: Timeline, i: nat, j: Job)
    requires Inv(t) && i < |t.jobs| && OnGrid(j) && j.serial == t.jobs[i].serial && j.deadline >= t.jobs[i].deadline
    requires j.period == t.jobs[i].period
    ensures Inv(t.(jobs := t.jobs[i := j]))
  {
    hide OnGrid;
  }

  lemma RemovedKeeps(t: Timeline, i: nat)
    requires Inv(t) && i < |t.jobs|
    ensures Inv(t.(jobs := Removed(t.jobs, i)))
    ensures forall a :: 0 <= a < |t.jobs| - 1 ==> Removed(t.jobs, i)[a].serial != t.jobs[i].serial
  {
    var rest := Removed(t.jobs, i);
    assert forall a :: 0 <= a < |rest| ==> rest[a] == t.jobs[if a < i then a else a + 1];
    hide OnGrid, Removed;
  }

  /** Firing job i at its deadline, once the job has moved on or is gone. */
  lemma FiredKeeps(t: Timeline, jobs: seq<Job>, e: DueEvent)
    requires Inv(t) && Inv(t.(jobs := jobs)) && e.serial < t.scheduled
    requires exists i :: 0 <= i < |t.jobs| && t.jobs[i].serial == e.serial && t.jobs[i].deadline == e.boundary && t.jobs[i].period == e.period
    requires forall a :: 0 <= a < |jobs| && jobs[a].serial == e.serial ==> e.boundary < jobs[a].deadline && jobs[a].period > 0
    ensures Inv(t.(jobs := jobs, fired := t.fired + [e]))
  {
    var i :| 0 <= i < |t.jobs| && t.jobs[i].serial == e.serial && t.jobs[i].deadline == e.boundary
            && t.jobs[i].period == e.period;
    assert forall f :: 0 <= f < |t.fired| && t.fired[f].serial == t.jobs[i].serial ==> t.fired[f].boundary < t.jobs[i].deadline;
    hide OnGrid;
  }

  /** Dispatching keeps all of it, and what it emits is what it adds. */
  lemma {:induction false} DispatchKeeps(t: Timeline, now: uint64, i: nat, room: nat)
    requires Inv(t) && Unwrapped(t.jobs, now)
    ensures var (jobs, events) := Dispatch(t.jobs, now, i, room);
      Inv(t.(jobs := jobs, fired := t.fired + events)) && |events| <= room
    decreases |t.jobs| - i
  {
    if i >= |t.jobs| || room == 0 {
      assert t.fired + [] == t.fired;
    } else {
      var j := t.jobs[i];
      if j.deadline > now || (j.pending && j.policy != Skip) {
        DispatchKeeps(t, now, i + 1, room);
      } else {
        DispatchOne(t, now, i, room);
      }
    }
  }

  /** The jobs after job i's deadline was handled: it moved on, or was a one-shot and is gone. */
  function Turned(jobs: seq<Job>, now: uint64, i: nat): seq<Job>
    requires i < |jobs|
  {
    var j := jobs[i];
    if j.period > 0 then jobs[i := Rescheduled(j, now, !j.pending)] else Removed(jobs, i)
  }

  predicate LaterOrGone(jobs: seq<Job>, j: Job) {
    forall a :: 0 <= a < |jobs| && jobs[a].serial == j.serial ==> j.deadline < jobs[a].deadline && jobs[a].period > 0
  }

  lemma TurnKeeps(t: Timeline, now: uint64, i: nat)
    requires Inv(t) && Unwrapped(t.jobs, now) && i < |t.jobs| && t.jobs[i].deadline <= now
    ensures var jobs := Turned(t.jobs, now, i);
      Inv(t.(jobs := jobs)) && Unwrapped(jobs, now) && LaterOrGone(jobs, t.jobs[i])
  {
    var j := t.jobs[i];
    if j.period > 0 {
      RescheduledIsLater(j, now, !j.pending);
      MovedKeeps(t, i, Rescheduled(j, now, !j.pending));
    } else {
      RemovedKeeps(t, i);
      var rest := Removed(t.jobs, i);
      assert forall a :: 0 <= a < |rest| ==> rest[a] == t.jobs[if a < i then a else a + 1];
      hide Removed;
    }
    hide OnGrid, FiredOnce, FiredEarlier, NextAnchored;
  }

  lemma DispatchOne(t: Timeline, now: uint64, i: nat, room: nat)
    requires Inv(t) && Unwrapped(t.jobs, now) && i < |t.jobs| && room > 0
    requires t.jobs[i].deadline <= now && !(t.jobs[i].pending && t.jobs[i].policy != Skip)
    ensures var (jobs, events) := Dispatch(t.jobs, now, i, room);
      Inv(t.(jobs := jobs, fired := t.fired + events)) && |events| <= room
    decreases |t.jobs| - i, 0
  {
    var j := t.jobs[i];
    TurnKeeps(t, now, i);
    var jobs := Turned(t.jobs, now, i);
    var next := if j.period > 0 then i + 1 else i;
    if j.pending {
      assert Dispatch(t.jobs, now, i, room) == Dispatch(jobs, now, next, room);
      hide Inv, Unwrapped, Turned;
      DispatchKeeps(t.(jobs := jobs), now, next, room);
    } else {
      assert j.serial < t.scheduled;
      var (after, events) := Dispatch(jobs, now, next, room - 1);
      assert Dispatch(t.jobs, now, i, room) == (after, [Due(j)] + events);
      FiredKeeps(t, jobs, Due(j));
      hide Inv, Unwrapped, Turned, Dispatch;
      DispatchKeeps(t.(jobs := jobs, fired := t.fired + [Due(j)]), now, next, room - 1);
      assert (t.fired + [Due(j)]) + events == t.fired + ([Due(j)] + events);
    }
  }

  // ---------- Runs ----------

  datatype Call =
    | OneShotCall(job: Job, deadline: uint64)
    | PeriodicCall(job: Job, anchor: uint64, period: uint64, now: uint64)
    | CancelCall(id: uint16, generation: uint32)
    | AcknowledgeCall(id: uint16, generation: uint32)
    | DispatchCall(now: uint64, maxEvents: nat)

  /** No deadline computed by the call comes within a period of the end of 64-bit time. */
  predicate Possible(t: Timeline, c: Call) {
    match c
    case PeriodicCall(_, _, period, now) => now + period < UINT64_LIMIT
    case DispatchCall(now, _) => Unwrapped(t.jobs, now)
    case _ => true
  }

  function Step(t: Timeline, c: Call): Timeline {
    match c
    case OneShotCall(j, deadline) =>
      var (jobs, result) := OneShot(t.jobs, j.(serial := t.scheduled), deadline);
      t.(jobs := jobs, scheduled := t.scheduled + 1)
    case PeriodicCall(j, anchor, period, now) =>
      var (jobs, result) := Periodic(t.jobs, j.(serial := t.scheduled), anchor, period, now);
      t.(jobs := jobs, scheduled := t.scheduled + 1)
    case CancelCall(id, generation) => t.(jobs := Cancel(t.jobs, id, generation).0)
    case AcknowledgeCall(id, generation) => t.(jobs := Acknowledge(t.jobs, id, generation).0)
    case DispatchCall(now, maxEvents) =>
      var (jobs, events) := Dispatch(t.jobs, now, 0, maxEvents);
      t.(jobs := jobs, fired := t.fired + events)
  }

  lemma AddedKeeps(t: Timeline, j: Job)
    requires Inv(t) && OnGrid(j) && j.serial == t.scheduled
    ensures Inv(t.(jobs := Added(t.jobs, j).0, scheduled := t.scheduled + 1))
  {
    hide OnGrid, FindJob;
  }

  lemma PeriodicIsOnGrid(j: Job, anchor: uint64, period: uint64, now: uint64)
    requires period > 0 && now + period < UINT64_LIMIT
    ensures OnGrid(j.(anchor := anchor, period := period, deadline := NextAnchored(anchor, period, now), pending := false))
  {
    if anchor > now {
      assert NextAnchored(anchor, period, now) == Grid(anchor, period, 0);
    } else {
      NextAnchoredIff(anchor, period, now);
      BoundaryIsNext(anchor, period, now);
      assert NextAnchored(anchor, period, now) == Grid(anchor, period, Boundary(anchor, period, now));
    }
  }

  lemma StepKeeps(t: Timeline, c: Call)
    requires Inv(t) && Possible(t, c)
    ensures Inv(Step(t, c))
  {
    match c
    case OneShotCall(j, deadline) =>
      var k := j.(serial := t.scheduled, deadline := deadline, anchor := deadline, period := 0, policy := Skip, pending := false);
      AddedKeeps(t, k);
      hide Inv, Added;
    case PeriodicCall(j, anchor, period, now) =>
      if period > 0 {
        PeriodicIsOnGrid(j.(serial := t.scheduled), anchor, period, now);
        AddedKeeps(t, j.(serial := t.scheduled, anchor := anchor, period := period,
                         deadline := NextAnchored(anchor, period, now), pending := false));
        hide Inv, Added;
      } else {
        hide OnGrid;
      }
    case CancelCall(id, generation) =>
      if FindJob(t.jobs, id) < |t.jobs| {
        RemovedKeeps(t, FindJob(t.jobs, id));
      }
      hide Inv, Removed, FindJob;
    case AcknowledgeCall(id, generation) =>
      var i := FindJob(t.jobs, id);
      if i < |t.jobs| {
        assert OnGrid(t.jobs[i].(pending := false));
        MovedKeeps(t, i, t.jobs[i].(pending := false));
      }
      hide Inv, FindJob;
    case DispatchCall(now, maxEvents) =>
      DispatchKeeps(t, now, 0, maxEvents);
      hide Inv, Dispatch;
  }

  ghost predicate IsRun(t: Timeline, calls: seq<Call>, end: Timeline)
    decreases |calls|
  {
    if calls == [] then end == t else Possible(t, calls[0]) && IsRun(Step(t, calls[0]), calls[1..], end)
  }

  lemma {:induction false} RunKeeps(t: Timeline, calls: seq<Call>, end: Timeline)
    requires Inv(t) && IsRun(t, calls, end)
    ensures Inv(end)
    decreases |calls|
  {
    hide Inv, Step, Possible;
    if calls != [] {
      StepKeeps(t, calls[0]);
      RunKeeps(Step(t, calls[0]), calls[1..], end);
    }
  }

  /** In every run from the empty scheduler: each deadline is a whole number of periods after its anchor, no boundary of a
      scheduling produces two events, and a one-shot produces one at most. */
  lemma NeverDrifts(calls: seq<Call>, end: Timeline)
    requires IsRun(Timeline([], [], 0), calls, end)
    ensures Inv(end)
  {
    assert Inv(Timeline([], [], 0));
    RunKeeps(Timeline([], [], 0), calls, end);
  }
}
