/** linux_scheduled_action_queue.c in its own form: the heap is swapped about in a fixed array. */
module ActionQueueObject {
  import opened Bits
  import opened StorageRecord
  import Spec = ActionQueue
  import opened ActionQueue

  class LinuxScheduledActionQueue {
    const actions: array<Action>
    var count: nat
    var nextInsertionSeq: nat

    ghost predicate Valid()
      reads this
    {
      actions.Length == MAX_CAPACITY && count <= MAX_CAPACITY
    }

    ghost function View(): Queue
      reads this, actions
      requires Valid()
    {
      Queue(actions[..count], nextInsertionSeq)
    }

    /** action_queue_init. */
    constructor (blank: Action)
      ensures Valid() && fresh(actions) && View() == Queue([], 0)
    {
      actions := new Action[MAX_CAPACITY](_ => blank);
      count, nextInsertionSeq := 0, 0;
    }

    method HeapSwap(i: nat, j: nat)
      requires Valid() && i < count && j < count
      modifies actions
      ensures actions[..count] == Swapped(old(actions[..count]), i, j)
    {
      actions[i], actions[j] := actions[j], actions[i];
    }

    method HeapSiftUp(start: nat)
      requires Valid() && start < count
      modifies actions
      ensures actions[..count] == SiftUp(old(actions[..count]), start)
    {
      hide Swapped;
      var idx := start;
      while idx > 0
        invariant 0 <= idx < count && SiftUp(actions[..count], idx) == SiftUp(old(actions[..count]), start)
      {
        var parent := (idx - 1) / 2;
        if !Less(actions[idx], actions[parent]) {
          break;
        }
        HeapSwap(idx, parent);
        idx := parent;
      }
    }

    method HeapSiftDown(start: nat)
      requires Valid() && start < count
      modifies actions
      ensures actions[..count] == SiftDown(old(actions[..count]), start)
    {
      hide Swapped;
      var idx := start;
      while true
        invariant 0 <= idx < count && SiftDown(actions[..count], idx) == SiftDown(old(actions[..count]), start)
        decreases count - idx
      {
        var smallest := idx;
        var left, right := 2 * idx + 1, 2 * idx + 2;
        if left < count && Less(actions[left], actions[smallest]) {
          smallest := left;
        }
        if right < count && Less(actions[right], actions[smallest]) {
          smallest := right;
        }
        if smallest == idx {
          break;
        }
        HeapSwap(idx, smallest);
        idx := smallest;
      }
    }

    /** action_queue_schedule. */
    method Schedule(action: Action) returns (ok: bool)
      requires Valid()
      modifies this, actions
      ensures Valid() && (View(), ok) == Spec.Schedule(old(View()), action)
    {
      hide SiftUp;
      if count >= MAX_CAPACITY {
        return false;
      }
      var idx := count;
      actions[idx] := action.(insertion := nextInsertionSeq);
      nextInsertionSeq := nextInsertionSeq + 1;
      count := count + 1;
      assert actions[..count] == old(actions[..count]) + [action.(insertion := old(nextInsertionSeq))];
      HeapSiftUp(idx);
      return true;
    }

    /** The last entry takes the place of entry i and is sifted down. */
    method Remove(i: nat)
      requires Valid() && i < count
      modifies this`count, actions
      ensures Valid() && View() == old(View()).(heap := TakenOut(old(actions[..count]), i))
    {
      hide SiftDown;
      actions[i] := actions[count - 1];
      count := count - 1;
      assert actions[..count] == old(actions[..count])[i := old(actions[..count])[count]][..count];
      if i < count {
        HeapSiftDown(i);
      }
    }

    /** action_queue_cancel. */
    method Cancel(operation: uint32, expectedGeneration: uint32) returns (ok: bool)
      requires Valid()
      modifies this, actions
      ensures Valid() && (View(), ok) == Spec.Cancel(old(View()), operation, expectedGeneration)
    {
      hide TakenOut;
      var i := 0;
      while i < count
        invariant 0 <= i <= count
        invariant FindOperation(actions[..count], operation, 0) == FindOperation(actions[..count], operation, i)
      {
        if actions[i].operation == operation {
          if actions[i].ownerGeneration != expectedGeneration {
            return false;
          }
          Remove(i);
          return true;
        }
        i := i + 1;
      }
      return false;
    }

    /** action_queue_dispatch_due. */
    method DispatchDue(now: uint64, maxOut: nat) returns (out: seq<Action>)
      requires Valid()
      modifies this, actions
      ensures Valid() && (out, View().heap) == Dispatch(old(View()).heap, now, maxOut)
      ensures nextInsertionSeq == old(nextInsertionSeq)
    {
      hide TakenOut;
      out := [];
      assert forall s: seq<Action> :: [] + s == s;
      while count > 0 && |out| < maxOut
        invariant Valid() && |out| <= maxOut && nextInsertionSeq == old(nextInsertionSeq)
        invariant var (rest, left) := Dispatch(actions[..count], now, maxOut - |out|);
          (out + rest, left) == Dispatch(old(View()).heap, now, maxOut)
        decreases count
      {
        if actions[0].due > now {
          break;
        }
        ghost var later := Dispatch(TakenOut(actions[..count], 0), now, maxOut - |out| - 1).0;
        assert out + ([actions[0]] + later) == (out + [actions[0]]) + later;
        out := out + [actions[0]];
        Remove(0);
      }
      assert out + [] == out;
    }
  }
}
