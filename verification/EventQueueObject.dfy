/** app_event_queue.c in its own form: a ring of 64 places. Nothing ever moves its head. */
module EventQueueObject {
  import opened Bits
  import opened Sequences
  import opened StorageRecord
  import opened EventQueue

  class AppEventQueue {
    const buffer: array<Event>
    const config: QueueConfig
    var head: nat
    var tail: nat
    var count: nat
    var criticalEmergency: bool
    var consecutiveDequeueCount: nat

    ghost predicate Valid()
      reads this
    {
      && buffer.Length == MAX_CAPACITY && head == 0 && count <= config.capacity <= MAX_CAPACITY
      && tail == count % MAX_CAPACITY && config.reservedCritical <= config.capacity && consecutiveDequeueCount <= FAIRNESS
    }

    ghost function View(): Queue
      reads this, buffer
      requires Valid()
    {
      Queue(buffer[..count], config, consecutiveDequeueCount, criticalEmergency)
    }

    /** app_event_queue_init. */
    constructor (requested: QueueConfig, blank: Event)
      ensures Valid() && fresh(buffer) && View() == Queue([], Clamped(requested), 0, false)
    {
      buffer := new Event[MAX_CAPACITY](_ => blank);
      config := Clamped(requested);
      head, tail, count, criticalEmergency, consecutiveDequeueCount := 0, 0, 0, false, 0;
    }

    /** find_coalesce_target. */
    method FindCoalesceTarget(e: Event) returns (found: bool, index: nat)
      requires Valid()
      ensures var target := if e.delivery == Level then CoalesceTarget(View().events, e, 0) else count;
        found == (target < count) && (found ==> index == target)
    {
      if e.delivery != Level {
        return false, 0;
      }
      var i, n := head, count;
      ghost var events := View().events;
      while n > 0
        invariant 0 <= n <= count == |events| && i == (count - n) % MAX_CAPACITY
        invariant CoalesceTarget(events, e, 0) == CoalesceTarget(events, e, count - n)
      {
        if buffer[i].id == e.id && buffer[i].source == e.source && buffer[i].delivery == Level {
          return true, i;
        }
        i := (i + 1) % MAX_CAPACITY;
        n := n - 1;
      }
      return false, 0;
    }

    /** post_unlocked. */
    method PostEvent(e: Event) returns (result: PostResult)
      requires Valid()
      modifies this, buffer
      ensures Valid() && (View(), result) == Post(old(View()), e)
    {
      var found, index := FindCoalesceTarget(e);
      if found {
        buffer[index] := e;
        assert buffer[..count] == old(buffer[..count])[index := e];
        return PostCoalesced;
      }
      var isBackground := e.priority != CRITICAL && e.priority != MEASUREMENT;
      if isBackground {
        if count >= config.capacity - config.reservedCritical {
          return PostBackpressure;
        }
      } else if count >= config.capacity {
        if e.priority == CRITICAL {
          criticalEmergency := true;
          return PostOverflowEscalated;
        }
        return PostBackpressure;
      }
      buffer[tail] := e;
      tail := (tail + 1) % MAX_CAPACITY;
      count := count + 1;
      assert buffer[..count] == old(buffer[..count]) + [e];
      return PostOk;
    }

    /** The scan of app_event_queue_try_get. */
    method BestIndex() returns (best: nat)
      requires Valid() && count > 0
      ensures best < count && best == Next(View())
    {
      var forced := consecutiveDequeueCount >= FAIRNESS;
      best := head;
      var i, n := head, count;
      ghost var events := View().events;
      while n > 0
        invariant 0 <= n <= count == |events| && i == (count - n) % MAX_CAPACITY && best < count
        invariant best == if forced || n == count then 0 else FirstBest(events, count - n)
      {
        if !forced && buffer[i].priority < buffer[best].priority {
          best := i;
        }
        i := (i + 1) % MAX_CAPACITY;
        n := n - 1;
      }
    }

    /** app_event_queue_try_get. */
    method TryGet() returns (e: Option<Event>)
      requires Valid()
      modifies this, buffer
      ensures Valid() && (View(), e) == Get(old(View()))
    {
      if count == 0 {
        return None;
      }
      var forced := consecutiveDequeueCount >= FAIRNESS;
      var best := BestIndex();
      e := Some(buffer[best]);
      if !forced && buffer[best].priority <= SHARED_RESOURCE {
        consecutiveDequeueCount := consecutiveDequeueCount + 1;
      } else {
        consecutiveDequeueCount := 0;
      }
      Remove(best);
    }

    /** The removal of app_event_queue_try_get: the events behind move up. */
    method Remove(best: nat)
      requires Valid() && best < count
      modifies this`tail, this`count, buffer
      ensures Valid()
      ensures View() == old(View()).(events := Removed(old(buffer[..count]), best))
    {
      hide Removed;
      CloseGap(buffer, best, count);
      tail := (tail + MAX_CAPACITY - 1) % MAX_CAPACITY;
      count := count - 1;
    }
  }
}
