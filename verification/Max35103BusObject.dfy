/** The bus fields of max35103.c in their own form. */
module Max35103BusObject {
  import opened Bits
  import opened StorageRecord
  import Spec = Max35103Bus
  import opened Max35103Bus

  class Max35103Spi {
    const hasLock: bool
    var busLocked: bool
    var pending: bool
    var asyncActive: bool
    var token: uint32
    var nextToken: uint32
    var machine: nat
    ghost var hooks: seq<Hook>
    ghost var staged: nat

    ghost function View(): Spi
      reads this
    {
      Spi(hasLock, busLocked, pending, asyncActive, token, nextToken, machine, hooks, staged)
    }

    constructor (lockInstalled: bool)
      ensures View() == InitialSpi(lockInstalled)
    {
      hasLock := lockInstalled;
      busLocked, pending, asyncActive, token, nextToken, machine, hooks, staged := false, false, false, 0, 0, 0, [], 0;
    }

    /** max_bus_acquire, with the lock hook's answer. */
    method Acquire(lock: Answer) returns (acquired: Answer)
      modifies this
      ensures (View(), acquired) == Spec.Acquire(old(View()), lock)
    {
      if busLocked {
        return Busy;
      }
      if hasLock {
        if lock != Done {
          return lock;
        }
        hooks := hooks + [Locked];
      }
      busLocked := true;
      return Done;
    }

    /** max_bus_release: the flag goes first, then the unlock hook runs. */
    method Release()
      modifies this
      ensures View() == Spec.Release(old(View()))
    {
      if !busLocked {
        return;
      }
      busLocked := false;
      if hasLock {
        hooks := hooks + [Unlocked];
      }
    }

    /** max_clear_pending_spi. */
    method ClearPending()
      modifies this
      ensures View() == Cleared(old(View()))
    {
      pending, token := false, 0;
    }

    /** max_cancel_pending_spi. */
    method CancelPending()
      modifies this
      ensures View() == Spec.CancelPending(old(View()))
    {
      if asyncActive {
        asyncActive := false;
        Release();
      }
      ClearPending();
    }

    /** max_schedule_register_read and max_schedule_block_read. */
    method Stage() returns (ok: bool)
      modifies this
      ensures (View(), ok) == Spec.Stage(old(View()))
    {
      if pending {
        return false;
      }
      nextToken := (nextToken + 1) % 0x1_0000_0000;
      if nextToken == 0 {
        nextToken := nextToken + 1;
      }
      token := nextToken;
      pending := true;
      staged := staged + 1;
      return true;
    }

    /** The event machine's decision after a frame. */
    method Decide(d: Decision)
      modifies this
      ensures View() == Decided(old(View()), d)
    {
      machine := d.machine;
      if d.Fail? {
        CancelPending();
      } else if d.Ask? {
        var ok := Stage();
        if !ok {
          CancelPending();
        }
      }
    }

    /** MAX35103_OnSpiDone. */
    method OnSpiDone(doneToken: uint32, ok: bool, error: nat, d: Decision)
      modifies this
      ensures View() == Spec.OnSpiDone(old(View()), doneToken, ok, error, d)
    {
      hide Decided, Spec.CancelPending;
      if !pending || doneToken == 0 || doneToken != token {
        return;
      }
      if asyncActive {
        asyncActive := false;
        Release();
      }
      ClearPending();
      if !ok {
        machine := error;
        CancelPending();
        return;
      }
      Decide(d);
    }

    /** MAX35103_StartPendingSpiAsync: marked active before the start hook, which may complete inside. */
    method StartPendingAsync(lock: Answer, inside: Option<Inside>, start: Answer) returns (status: SpiStatus)
      modifies this
      ensures (View(), status) == StartAsync(old(View()), lock, inside, start)
    {
      hide Spec.OnSpiDone;
      if !pending {
        return SpiNotReady;
      }
      if asyncActive {
        return SpiBusy;
      }
      var acquired := Acquire(lock);
      if acquired != Done {
        return StatusOf(acquired);
      }
      asyncActive := true;
      if inside.Some? {
        OnSpiDone(inside.value.token, inside.value.ok, inside.value.error, inside.value.decision);
      }
      if start == Done {
        return SpiOk;
      }
      asyncActive := false;
      Release();
      return StatusOf(start);
    }

    /** MAX35103_ExecuteSpi: one blocking frame under the bus, then its completion. */
    method Execute(lock: Answer, transfer: Answer, error: nat, d: Decision) returns (status: SpiStatus)
      modifies this
      ensures (View(), status) == ExecuteSpi(old(View()), lock, transfer, error, d)
    {
      hide Spec.OnSpiDone;
      if !pending {
        return SpiNotReady;
      }
      var requestToken := token;
      var answer := Acquire(lock);
      if answer == Done {
        Release();
        answer := transfer;
      }
      if answer == Busy {
        return SpiBusy;
      }
      OnSpiDone(requestToken, answer == Done, error, d);
      return StatusOf(answer);
    }
  }
}
