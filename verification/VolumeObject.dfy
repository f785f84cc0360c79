/** VolumeAccumulator_Consume in its own form: fields updated in place, products and sums checked against 64 bits. */
module VolumeObject {
  import opened Bits
  import opened StorageRecord
  import Spec = VolumeAccumulator
  import opened VolumeAccumulator

  const UINT64_MAX: uint64 := 0xFFFF_FFFF_FFFF_FFFF

  /** checked_mul_u64: true on overflow. */
  method CheckedMul(a: nat, b: nat) returns (overflow: bool, product: nat)
    requires a <= UINT64_MAX && b <= UINT64_MAX
    ensures overflow <==> a * b >= UINT64_LIMIT
    ensures !overflow ==> product == a * b
  {
    product := 0;
    if a > 0 && b > UINT64_MAX / a {
      assert a * (UINT64_MAX / a + 1) > UINT64_MAX;
      assert b >= UINT64_MAX / a + 1 ==> a * b >= a * (UINT64_MAX / a + 1) by { Monotone(a, UINT64_MAX / a + 1, b); }
      return true, 0;
    }
    if a > 0 {
      Monotone(a, b, UINT64_MAX / a);
      assert a * (UINT64_MAX / a) <= UINT64_MAX;
    }
    return false, a * b;
  }

  lemma Monotone(a: nat, b: int, c: int)
    ensures b <= c ==> a * b <= a * c
  {
  }

  /** checked_add_u64: true on overflow. */
  method CheckedAdd(a: nat, b: nat) returns (overflow: bool, sum: nat)
    requires a <= UINT64_MAX && b <= UINT64_MAX
    ensures overflow <==> a + b >= UINT64_LIMIT
    ensures !overflow ==> sum == a + b
  {
    if a > UINT64_MAX - b {
      return true, 0;
    }
    return false, a + b;
  }

  class Accumulating {
    const maximumGapUs: uint64
    var state: VolumeState
    var anchorValid: bool
    var anchor: Anchor
    var forwardRem: uint64
    var reverseRem: uint64
    var last: Watermark
    var generation: uint32
    var consumed: nat

    ghost function View(): Accumulator
      reads this
    {
      Accumulator(maximumGapUs, state, anchorValid, anchor, forwardRem, reverseRem, last, generation, consumed)
    }

    method SetAnchor(f: Flow)
      modifies this
      ensures View() == Reanchored(old(View()), f)
    {
      anchor := Anchor(f.meta.sampleUs, f.rate, f.meta.generation, f.meta.binding);
      anchorValid := true;
    }

    /** state_publish_identity and state_bump, with the watermark. */
    method Publish(m: Meta)
      modifies this
      ensures View() == Published(old(View()), m)
    {
      last := Watermark(m.generation, m.sequence, m.version);
      consumed := consumed + 1;
      state := state.(lastFlowSequence := m.sequence, lastSampleUs := m.sampleUs, anchorSampleUs := anchor.sampleUs,
                      anchorRate := anchor.rate, generation := m.generation, binding := m.binding,
                      forwardRemainder := forwardRem, reverseRemainder := reverseRem);
      state := state.(stateVersion := state.stateVersion + 1, updatedUs := m.sampleUs);
    }

    /** The integration of one interval. */
    method Integrate(dtUs: uint64) returns (overflow: bool)
      modifies this
      ensures overflow <==> Integrated(old(View()), dtUs).None?
      ensures View() == if overflow then old(View()) else Integrated(old(View()), dtUs).value
    {
      var negative := anchor.rate < 0;
      var numerator, delta, total;
      overflow, numerator := CheckedMul(Magnitude(anchor.rate), dtUs);
      if overflow {
        return;
      }
      overflow, numerator := CheckedAdd(numerator, if negative then reverseRem else forwardRem);
      if overflow {
        return;
      }
      delta := numerator / TIME_SCALE;
      var rest := numerator % TIME_SCALE;
      if negative {
        overflow, total := CheckedAdd(state.reverse, delta);
        if overflow {
          return;
        }
        state := state.(reverse := total);
        reverseRem := rest;
      } else if anchor.rate > 0 {
        overflow, total := CheckedAdd(state.forward, delta);
        if overflow {
          return;
        }
        state := state.(forward := total);
        forwardRem := rest;
      }
    }

    /** VolumeAccumulator_Consume. */
    method Consume(f: Flow) returns (status: Status)
      modifies this
      ensures (View(), status) == Spec.Consume(old(View()), f)
    {
      hide Published, Reanchored, Integrated;
      var m := f.meta;
      var rejection := Refuse(m);
      if rejection.Some? {
        return rejection.value;
      }
      if !anchorValid {
        generation := m.generation;
        SetAnchor(f);
        Publish(m);
        return Anchored;
      }
      if m.sampleUs == anchor.sampleUs {
        generation := m.generation;
        Publish(m);
        return ZeroInterval;
      }
      if m.sampleUs < anchor.sampleUs || m.sampleUs - anchor.sampleUs > maximumGapUs {
        generation := m.generation;
        state := state.(flags := state.flags + {if m.sampleUs < anchor.sampleUs then 2 else 3});
        SetAnchor(f);
        Publish(m);
        return RejectedTime;
      }
      var overflow := Integrate(m.sampleUs - anchor.sampleUs);
      if overflow {
        return Overflow;
      }
      SetAnchor(f);
      Publish(m);
      return VolumeOk;
    }

    /** The gates of VolumeAccumulator_Consume. */
    method Refuse(m: Meta) returns (rejection: Option<Status>)
      ensures rejection == Rejection(View(), m)
    {
      if !m.production {
        return Some(RejectedNonProduction);
      }
      if !m.valid {
        return Some(RejectedInvalid);
      }
      if !m.recent {
        return Some(RejectedStale);
      }
      if !m.accepted {
        return Some(RejectedInvalid);
      }
      if consumed > 0 && m.generation != generation {
        return Some(RejectedGeneration);
      }
      if consumed > 0 && m.generation == last.generation && m.sequence == last.sequence && m.version == last.version {
        return Some(RejectedDuplicate);
      }
      return None;
    }
  }
}
