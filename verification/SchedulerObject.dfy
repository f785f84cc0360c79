/** monotonic_scheduler.c in its own form: a dense array of jobs, compacted on removal. */
module SchedulerObject {
  import opened Bits
  import opened Sequences
  import opened StorageRecord
  import Spec = Scheduler
  import opened Scheduler

  class JobScheduler {
    const jobs: array<Job>
    var jobCount: nat
    /** How many schedulings there were, for the statements only. */
    var scheduled: nat

    ghost predicate Valid()
      reads this
    {
      jobs.Length == MAX_JOBS && jobCount <= MAX_JOBS
    }

    ghost function View(): seq<Job>
      reads this, jobs
      requires Valid()
    {
      jobs[..jobCount]
    }

    /** scheduler_init. */
    constructor (blank: Job)
      ensures Valid() && fresh(jobs) && View() == [] && scheduled == 0
    {
      jobs := new Job[MAX_JOBS](_ => blank);
      jobCount, scheduled := 0, 0;
    }

    /** find_job. */
    method IndexOf(id: uint16) returns (at: nat)
      requires Valid()
      ensures at == FindJob(View(), id)
    {
      at := 0;
      while at < jobCount
        invariant 0 <= at <= jobCount
        invariant FindJob(View(), id) == at + FindJob(jobs[at..jobCount], id)
      {
        if jobs[at].id == id {
          return;
        }
        assert jobs[at..jobCount][1..] == jobs[at + 1..jobCount];
        at := at + 1;
      }
    }

    /** remove_job_at. */
    method RemoveAt(i: nat)
      requires Valid() && i < jobCount
      modifies this`jobCount, jobs
      ensures Valid() && View() == Removed(old(View()), i)
    {
      hide Removed;
      CloseGap(jobs, i, jobCount);
      jobCount := jobCount - 1;
    }

    method Add(j: Job) returns (result: ScheduleResult)
      requires Valid()
      modifies this`jobCount, jobs
      ensures Valid() && (View(), result) == Added(old(View()), j)
    {
      if jobCount >= MAX_JOBS {
        return RejectedFull;
      }
      var at := IndexOf(j.id);
      if at < jobCount {
        return RejectedDuplicateId;
      }
      jobs[jobCount] := j;
      jobCount := jobCount + 1;
      assert jobs[..jobCount] == old(jobs[..jobCount]) + [j];
      return ScheduleOk;
    }

    /** scheduler_schedule_one_shot. */
    method ScheduleOneShot(j: Job, deadline: uint64) returns (result: ScheduleResult)
      requires Valid()
      modifies this, jobs
      ensures Valid() && scheduled == old(scheduled) + 1
      ensures (View(), result) == OneShot(old(View()), j.(serial := old(scheduled)), deadline)
    {
      hide Added;
      result := Add(j.(serial := scheduled, deadline := deadline, anchor := deadline, period := 0, policy := Skip,
                       pending := false));
      scheduled := scheduled + 1;
    }

    /** scheduler_schedule_periodic, at the time the clock shows. */
    method SchedulePeriodic(j: Job, anchor: uint64, period: uint64, now: uint64) returns (result: ScheduleResult)
      requires Valid()
      modifies this, jobs
      ensures Valid() && scheduled == old(scheduled) + 1
      ensures (View(), result) == Periodic(old(View()), j.(serial := old(scheduled)), anchor, period, now)
    {
      hide Added, NextAnchored;
      scheduled := scheduled + 1;
      if period == 0 {
        return RejectedInvalidPeriod;
      }
      result := Add(j.(serial := scheduled - 1, anchor := anchor, period := period,
                       deadline := NextAnchored(anchor, period, now), pending := false));
    }

    /** scheduler_cancel. */
    method Cancel(id: uint16, expectedGeneration: uint32) returns (result: ScheduleResult)
      requires Valid()
      modifies this`jobCount, jobs
      ensures Valid() && (View(), result) == Spec.Cancel(old(View()), id, expectedGeneration)
    {
      var i := IndexOf(id);
      if i == jobCount || jobs[i].generation != expectedGeneration {
        return NotFound;
      }
      RemoveAt(i);
      return Cancelled;
    }

    /** scheduler_acknowledge. */
    method Acknowledge(id: uint16, expectedGeneration: uint32) returns (ok: bool)
      requires Valid()
      modifies jobs
      ensures Valid() && (View(), ok) == Spec.Acknowledge(old(View()), id, expectedGeneration)
    {
      var i := IndexOf(id);
      if i == jobCount || jobs[i].generation != expectedGeneration || !jobs[i].pending {
        return false;
      }
      jobs[i] := jobs[i].(pending := false);
      assert View() == old(View())[i := old(View())[i].(pending := false)];
      return true;
    }

    /** scheduler_dispatch_due. */
    method DispatchDue(now: uint64, maxEvents: nat) returns (events: seq<DueEvent>)
      requires Valid()
      modifies this`jobCount, jobs
      ensures Valid() && (View(), events) == Dispatch(old(View()), now, 0, maxEvents)
    {
      hide NextAnchored;
      events := [];
      var i := 0;
      ghost var rest := Dispatch(View(), now, 0, maxEvents).1;
      assert events + rest == rest;
      while i < jobCount && |events| < maxEvents
        invariant Valid() && 0 <= i <= jobCount && |events| <= maxEvents
        invariant Dispatch(View(), now, i, maxEvents - |events|) == (Dispatch(old(View()), now, 0, maxEvents).0, rest)
        invariant events + rest == Dispatch(old(View()), now, 0, maxEvents).1
        decreases jobCount - i
      {
        var j := jobs[i];
        ghost var before := View();
        if j.deadline > now || (j.pending && j.policy != Skip) {
          i := i + 1;
        } else {
          if !j.pending {
            assert rest[0] == Due(j) && rest == [Due(j)] + rest[1..];
            assert (events + [Due(j)]) + rest[1..] == events + rest;
            events := events + [Due(j)];
            rest := rest[1..];
          }
          if j.period > 0 {
            jobs[i] := j.(deadline := NextAnchored(j.anchor, j.period, now), pending := !j.pending);
            assert View() == before[i := Rescheduled(j, now, !j.pending)];
            i := i + 1;
          } else {
            RemoveAt(i);
          }
        }
      }
      assert rest == [] ==> events + rest == events;
    }
  }
}
