/** The volume accumulator of volume_accumulator.c: flow integrated over time, in microlitres with a carried remainder
    in millionths. Versions and diagnostic counts do not wrap. */
module VolumeAccumulator {
  import opened Bits
  import opened StorageRecord

  const TIME_SCALE: nat := 1_000_000
  const UINT64_LIMIT: nat := 0x1_0000_0000_0000_0000

  datatype Meta = Meta(
    production: bool, valid: bool, recent: bool, accepted: bool,
    generation: uint32, sequence: uint64, version: uint64, sampleUs: uint64, binding: uint32)

  datatype Flow = Flow(meta: Meta, rate: int64, forward: bool)

  datatype Status =
    | VolumeOk | Anchored | ZeroInterval | RejectedNonProduction | RejectedInvalid | RejectedStale
    | RejectedDuplicate | RejectedGeneration | RejectedTime | Overflow

  datatype Anchor = Anchor(sampleUs: uint64, rate: int64, generation: uint32, binding: uint32)

  datatype Watermark = Watermark(generation: uint32, sequence: uint64, version: uint64)

  /** The published state. */
  datatype VolumeState = VolumeState(
    stateVersion: nat, forward: uint64, reverse: uint64, forwardRemainder: uint64, reverseRemainder: uint64,
    lastFlowSequence: uint64, lastSampleUs: uint64, anchorSampleUs: uint64, anchorRate: int64,
    generation: uint32, binding: uint32, updatedUs: uint64, checkpointSequence: uint64, flags: set<nat>)

  datatype Accumulator = Accumulator(
    maximumGapUs: uint64, state: VolumeState, anchorValid: bool, anchor: Anchor,
    forwardRem: uint64, reverseRem: uint64, last: Watermark, generation: uint32, consumed: nat)

  // ---------- One sample ----------

  /** Why a sample is not looked at. */
  function Rejection(a: Accumulator, m: Meta): Option<Status> {
    if !m.production then Some(RejectedNonProduction)
    else if !m.valid then Some(RejectedInvalid)
    else if !m.recent then Some(RejectedStale)
    else if !m.accepted then Some(RejectedInvalid)
    else if a.consumed > 0 && m.generation != a.generation then Some(RejectedGeneration)
    else if a.consumed > 0 && a.last == Watermark(m.generation, m.sequence, m.version) then Some(RejectedDuplicate)
    else None
  }

  /** The watermark moves, the state is published under the sample's identity and gets a new version. */
  function Published(a: Accumulator, m: Meta): Accumulator {
    a.(last := Watermark(m.generation, m.sequence, m.version), consumed := a.consumed + 1,
       state := a.state.(lastFlowSequence := m.sequence, lastSampleUs := m.sampleUs, anchorSampleUs := a.anchor.sampleUs,
                         anchorRate := a.anchor.rate, generation := m.generation, binding := m.binding,
                         forwardRemainder := a.forwardRem, reverseRemainder := a.reverseRem,
                         stateVersion := a.state.stateVersion + 1, updatedUs := m.sampleUs))
  }

  function Reanchored(a: Accumulator, f: Flow): Accumulator {
    a.(anchorValid := true, anchor := Anchor(f.meta.sampleUs, f.rate, f.meta.generation, f.meta.binding))
  }

  function Flagged(a: Accumulator, bit: nat): Accumulator {
    a.(state := a.state.(flags := a.state.flags + {bit}))
  }

  function Magnitude(rate: int): nat {
    if rate < 0 then -rate else rate
  }

  /** The interval since the anchor at the anchor's rate; None if a number does not fit in 64 bits. */
  function Integrated(a: Accumulator, dtUs: nat): Option<Accumulator> {
    var negative := a.anchor.rate < 0;
    var product := Magnitude(a.anchor.rate) * dtUs;
    var numerator := product + (if negative then a.reverseRem else a.forwardRem);
    var delta := numerator / TIME_SCALE;
    var rest := numerator % TIME_SCALE;
    if product >= UINT64_LIMIT || numerator >= UINT64_LIMIT then None
    else if a.anchor.rate == 0 then Some(a)
    else if negative then
      if a.state.reverse + delta >= UINT64_LIMIT then None
      else Some(a.(state := a.state.(reverse := a.state.reverse + delta), reverseRem := rest))
    else if a.state.forward + delta >= UINT64_LIMIT then None
    else Some(a.(state := a.state.(forward := a.state.forward + delta), forwardRem := rest))
  }

  /** VolumeAccumulator_Consume. */
  function Consume(a: Accumulator, f: Flow): (Accumulator, Status) {
    var m := f.meta;
    var rejection := Rejection(a, m);
    var adopted := a.(generation := m.generation);
    if rejection.Some? then (a, rejection.value)
    else if !a.anchorValid then (Published(Reanchored(adopted, f), m), Anchored)
    else if m.sampleUs == a.anchor.sampleUs then (Published(adopted, m), ZeroInterval)
    else if m.sampleUs < a.anchor.sampleUs then (Published(Reanchored(Flagged(adopted, 2), f), m), RejectedTime)
    else if m.sampleUs - a.anchor.sampleUs > a.maximumGapUs then
      (Published(Reanchored(Flagged(adopted, 3), f), m), RejectedTime)
    else
      match Integrated(a, m.sampleUs - a.anchor.sampleUs)
      case None => (a, Overflow)
      case Some(b) => (Published(Reanchored(b, f), m), VolumeOk)
  }

  // ---------- Conservation ----------

  predicate RemaindersOk(a: Accumulator) {
    a.forwardRem < TIME_SCALE && a.reverseRem < TIME_SCALE
  }

  /** What the accumulator stands for, in millionths of a microlitre. */
  function ForwardTotal(a: Accumulator): nat { a.state.forward * TIME_SCALE + a.forwardRem }

  function ReverseTotal(a: Accumulator): nat { a.state.reverse * TIME_SCALE + a.reverseRem }

  function Forward(rate: int): nat { if rate > 0 then rate else 0 }

  function Reverse(rate: int): nat { if rate < 0 then -rate else 0 }

  /** The interval a sample closes: only an accepted one counts. */
  function Interval(a: Accumulator, f: Flow): nat {
    if Consume(a, f).1 == VolumeOk && f.meta.sampleUs >= a.anchor.sampleUs then f.meta.sampleUs - a.anchor.sampleUs else 0
  }

  lemma IntegratedIsExact(a: Accumulator, dtUs: nat)
    requires RemaindersOk(a)
    ensures match Integrated(a, dtUs)
      case Some(b) =>
        && RemaindersOk(b) && b == a.(state := b.state, forwardRem := b.forwardRem, reverseRem := b.reverseRem)
        && b.state == a.state.(forward := b.state.forward, reverse := b.state.reverse)
        && ForwardTotal(b) == ForwardTotal(a) + Forward(a.anchor.rate) * dtUs
        && ReverseTotal(b) == ReverseTotal(a) + Reverse(a.anchor.rate) * dtUs
      case None =>
        || ForwardTotal(a) + Forward(a.anchor.rate) * dtUs >= UINT64_LIMIT * TIME_SCALE
        || ReverseTotal(a) + Reverse(a.anchor.rate) * dtUs >= UINT64_LIMIT * TIME_SCALE
        || Magnitude(a.anchor.rate) * dtUs + (if a.anchor.rate < 0 then a.reverseRem else a.forwardRem) >= UINT64_LIMIT
  {
    var product := Magnitude(a.anchor.rate) * dtUs;
    var numerator := product + (if a.anchor.rate < 0 then a.reverseRem else a.forwardRem);
    assert numerator == numerator / TIME_SCALE * TIME_SCALE + numerator % TIME_SCALE;
    assert a.anchor.rate == 0 ==> product == 0;
  }

  /** One sample: the totals grow by exactly the anchor's rate over the interval it closes, and only then; a sample that
      would overflow changes nothing at all. */
  lemma ConsumeConserves(a: Accumulator, f: Flow)
    requires RemaindersOk(a)
    ensures var (b, status) := Consume(a, f);
      && RemaindersOk(b)
      && ForwardTotal(b) == ForwardTotal(a) + Forward(a.anchor.rate) * Interval(a, f)
      && ReverseTotal(b) == ReverseTotal(a) + Reverse(a.anchor.rate) * Interval(a, f)
      && (status == Overflow ==> b == a)
  {
    if a.anchorValid && f.meta.sampleUs >= a.anchor.sampleUs {
      IntegratedIsExact(a, f.meta.sampleUs - a.anchor.sampleUs);
    }
    NoIntervalNoFlow(a.anchor.rate);
    hide Integrated, Forward, Reverse, Rejection;
  }

  lemma NoIntervalNoFlow(rate: int64)
    ensures Forward(rate) * 0 == 0 && Reverse(rate) * 0 == 0
  {
  }

  /** The interval of dtUs at the anchor's rate fits in 64 bits: the product, its sum with the remainder, and the new
      volume. */
  predicate IntervalFits(a: Accumulator, dtUs: nat) {
    var product := Magnitude(a.anchor.rate) * dtUs;
    var (rem, volume) := if a.anchor.rate < 0 then (a.reverseRem, a.state.reverse) else (a.forwardRem, a.state.forward);
    product + rem < UINT64_LIMIT && volume + (product + rem) / TIME_SCALE < UINT64_LIMIT
  }

  /** A sample in order overflows exactly when the product, its sum with the remainder, or the new volume does not fit
      in 64 bits. */
  lemma OverflowIff(a: Accumulator, f: Flow)
    requires RemaindersOk(a) && Rejection(a, f.meta).None? && a.anchorValid
    requires 0 < f.meta.sampleUs - a.anchor.sampleUs <= a.maximumGapUs
    ensures Consume(a, f).1 == Overflow <==> !IntervalFits(a, f.meta.sampleUs - a.anchor.sampleUs)
  {
    var dtUs := f.meta.sampleUs - a.anchor.sampleUs;
    assert a.anchor.rate == 0 ==> Magnitude(a.anchor.rate) * dtUs == 0;
  }

  /** The guards a sample must pass to be taken: the gates of its metadata, and, once there is an anchor, that it lies
      within the gap after it, or at it, with an interval that fits. */
  predicate Takes(a: Accumulator, f: Flow) {
    && Rejection(a, f.meta).None?
    && (!a.anchorValid || f.meta.sampleUs == a.anchor.sampleUs
        || (0 < f.meta.sampleUs - a.anchor.sampleUs <= a.maximumGapUs && IntervalFits(a, f.meta.sampleUs - a.anchor.sampleUs)))
  }

  lemma TakenIff(a: Accumulator, f: Flow)
    requires RemaindersOk(a)
    ensures var (b, status) := Consume(a, f);
      && (status == VolumeOk || status == Anchored || status == ZeroInterval <==> Takes(a, f))
      && (Takes(a, f) ==> b.state.stateVersion == a.state.stateVersion + 1 && RemaindersOk(b))
      && (status == VolumeOk <==> Takes(a, f) && a.anchorValid && f.meta.sampleUs != a.anchor.sampleUs)
  {
    ConsumeConserves(a, f);
    if Rejection(a, f.meta).None? && a.anchorValid && 0 < f.meta.sampleUs - a.anchor.sampleUs <= a.maximumGapUs {
      OverflowIff(a, f);
    }
    hide IntervalFits;
  }

  /** A sample that comes too late after the anchor. */
  predicate BeyondGap(a: Accumulator, f: Flow) {
    a.anchorValid && f.meta.sampleUs > a.anchor.sampleUs && f.meta.sampleUs - a.anchor.sampleUs > a.maximumGapUs
  }

  /** The accumulator alone goes on after a gap: the late sample adds nothing and becomes the anchor, and the next one
      within the gap of that integrates the late sample's rate over the time since it. */
  lemma AccumulationResumes(a: Accumulator, f: Flow, g: Flow)
    requires RemaindersOk(a) && BeyondGap(a, f) && Rejection(a, f.meta).None?
    requires var b := Consume(a, f).0;
      && Rejection(b, g.meta).None? && 0 < g.meta.sampleUs - f.meta.sampleUs <= a.maximumGapUs
      && IntervalFits(b, g.meta.sampleUs - f.meta.sampleUs)
    ensures var (b, late) := Consume(a, f); var (c, status) := Consume(b, g);
      && late == RejectedTime && status == VolumeOk && RemaindersOk(c)
      && ForwardTotal(c) == ForwardTotal(a) + Forward(f.rate) * (g.meta.sampleUs - f.meta.sampleUs)
      && ReverseTotal(c) == ReverseTotal(a) + Reverse(f.rate) * (g.meta.sampleUs - f.meta.sampleUs)
  {
    var (b, late) := Consume(a, f);
    assert b.anchorValid && b.anchor.sampleUs == f.meta.sampleUs && b.anchor.rate == f.rate && b.maximumGapUs == a.maximumGapUs;
    ConsumeConserves(a, f);
    TakenIff(a, f);
    TakenIff(b, g);
    ConsumeConserves(b, g);
    assert Interval(a, f) == 0;
    NoIntervalNoFlow(a.anchor.rate);
    hide Consume, IntervalFits, Forward, Reverse;
  }

  function Run(a: Accumulator, flows: seq<Flow>): Accumulator
    decreases |flows|
  {
    if flows == [] then a else Run(Consume(a, flows[0]).0, flows[1..])
  }

  /** The exact sums of anchor rate times interval over the accepted samples. */
  function ForwardFlowed(a: Accumulator, flows: seq<Flow>): int
    decreases |flows|
  {
    if flows == [] then 0
    else Forward(a.anchor.rate) * Interval(a, flows[0]) + ForwardFlowed(Consume(a, flows[0]).0, flows[1..])
  }

  function ReverseFlowed(a: Accumulator, flows: seq<Flow>): int
    decreases |flows|
  {
    if flows == [] then 0
    else Reverse(a.anchor.rate) * Interval(a, flows[0]) + ReverseFlowed(Consume(a, flows[0]).0, flows[1..])
  }

  /** In every run, whatever is rejected, duplicated, out of time or too large in between. */
  lemma {:induction false} VolumeIsConserved(a: Accumulator, flows: seq<Flow>)
    requires RemaindersOk(a)
    ensures RemaindersOk(Run(a, flows))
    ensures ForwardTotal(Run(a, flows)) == ForwardTotal(a) + ForwardFlowed(a, flows)
    ensures ReverseTotal(Run(a, flows)) == ReverseTotal(a) + ReverseFlowed(a, flows)
    decreases |flows|
  {
    if flows != [] {
      ConsumeConserves(a, flows[0]);
      VolumeIsConserved(Consume(a, flows[0]).0, flows[1..]);
      hide Consume, Interval, ForwardTotal, ReverseTotal;
    }
  }

  // ---------- Splitting an interval ----------

  /** Every sample is accepted, and every one of them reports the same rate. */
  ghost predicate SteadyRun(a: Accumulator, flows: seq<Flow>, rate: int64)
    decreases |flows|
  {
    flows == [] || (flows[0].rate == rate && Consume(a, flows[0]).1 == VolumeOk
                    && SteadyRun(Consume(a, flows[0]).0, flows[1..], rate))
  }

  function EndTime(a: Accumulator, flows: seq<Flow>): nat {
    if flows == [] then a.anchor.sampleUs else flows[|flows| - 1].meta.sampleUs
  }

  lemma AcceptedMovesAnchor(a: Accumulator, f: Flow)
    requires Consume(a, f).1 == VolumeOk
    ensures Consume(a, f).0.anchor == Anchor(f.meta.sampleUs, f.rate, f.meta.generation, f.meta.binding)
    ensures Interval(a, f) == f.meta.sampleUs - a.anchor.sampleUs
  {
  }

  lemma {:induction false} SteadyFlowed(a: Accumulator, flows: seq<Flow>)
    requires SteadyRun(a, flows, a.anchor.rate)
    ensures EndTime(a, flows) >= a.anchor.sampleUs
    ensures ForwardFlowed(a, flows) == Forward(a.anchor.rate) * (EndTime(a, flows) - a.anchor.sampleUs)
    ensures ReverseFlowed(a, flows) == Reverse(a.anchor.rate) * (EndTime(a, flows) - a.anchor.sampleUs)
    decreases |flows|
  {
    if flows != [] {
      var b := Consume(a, flows[0]).0;
      AcceptedMovesAnchor(a, flows[0]);
      SteadyFlowed(b, flows[1..]);
      assert EndTime(b, flows[1..]) == EndTime(a, flows);
      var (first, rest) := (b.anchor.sampleUs - a.anchor.sampleUs, EndTime(a, flows) - b.anchor.sampleUs);
      Distributes(Forward(a.anchor.rate), first, rest);
      Distributes(Reverse(a.anchor.rate), first, rest);
    }
  }

  lemma Distributes(r: int, s: int, t: int)
    ensures r * s + r * t == r * (s + t)
  {
  }

  /** A constant flow sampled in any two ways over the same time gives the same volumes and the same remainders. */
  lemma SplittingIsExact(a: Accumulator, p: seq<Flow>, q: seq<Flow>)
    requires RemaindersOk(a) && SteadyRun(a, p, a.anchor.rate) && SteadyRun(a, q, a.anchor.rate)
    requires EndTime(a, p) == EndTime(a, q)
    ensures var (b, c) := (Run(a, p), Run(a, q));
      && b.state.forward == c.state.forward && b.forwardRem == c.forwardRem
      && b.state.reverse == c.state.reverse && b.reverseRem == c.reverseRem
  {
    VolumeIsConserved(a, p);
    VolumeIsConserved(a, q);
    SteadyFlowed(a, p);
    SteadyFlowed(a, q);
    hide Run, ForwardFlowed, ReverseFlowed;
  }

  // ---------- Checkpoints ----------

  datatype Candidate = Candidate(
    checkpointSequence: nat, stateVersion: nat, forward: uint64, reverse: uint64, forwardRemainder: uint64,
    reverseRemainder: uint64, lastFlowSequence: uint64, lastSampleUs: uint64, generation: uint32, binding: uint32)

  /** VolumeAccumulator_PrepareCheckpoint. */
  function PrepareCheckpoint(a: Accumulator): Candidate {
    Candidate(a.state.checkpointSequence + 1, a.state.stateVersion, a.state.forward, a.state.reverse, a.forwardRem,
              a.reverseRem, a.state.lastFlowSequence, a.state.updatedUs, a.generation, a.anchor.binding)
  }

  /** VolumeAccumulator_Restore. */
  function Restore(a: Accumulator, s: VolumeState): Accumulator {
    a.(state := a.state.(forward := s.forward, reverse := s.reverse, checkpointSequence := s.checkpointSequence,
                         stateVersion := s.stateVersion + 1, flags := s.flags + {1}),
       forwardRem := s.forwardRemainder, reverseRem := s.reverseRemainder, generation := s.generation, anchorValid := false)
  }

  /** The seven values of a candidate that the volume record holds; of the count of state versions, 64 bits. */
  function Recorded(c: Candidate): Volume {
    Volume(c.forward, c.reverse, c.forwardRemainder, c.reverseRemainder, c.stateVersion % UINT64_LIMIT,
           c.lastFlowSequence, c.generation)
  }

  /** The state that a decoded record stands for; what the record does not hold comes from elsewhere. */
  function FromRecord(v: Volume, rest: VolumeState): VolumeState {
    rest.(forward := v.forward, reverse := v.reverse, forwardRemainder := v.forwardRemainder,
          reverseRemainder := v.reverseRemainder, stateVersion := v.stateVersion, generation := v.lastSourceGeneration)
  }

  /** A checkpoint encoded, committed, decoded and restored into any accumulator loses not a millionth. */
  lemma CheckpointSurvives(a: Accumulator, sequence: uint32, slot: Slot, target: Accumulator, rest: VolumeState)
    requires RemaindersOk(a)
    requires slot == VolumeSlot(sequence, Recorded(PrepareCheckpoint(a)), COMMIT_VALID)
    ensures ValidVolumeSlot(slot) && Decode(slot).Some?
    ensures var b := Restore(target, FromRecord(Decode(slot).value, rest));
      && RemaindersOk(b) && ForwardTotal(b) == ForwardTotal(a) && ReverseTotal(b) == ReverseTotal(a)
      && b.state.stateVersion == a.state.stateVersion % UINT64_LIMIT + 1 && b.generation == a.generation && !b.anchorValid
  {
    var v := Recorded(PrepareCheckpoint(a));
    assert v.RemaindersInRange();
    RestoredTotals(a, v, target, rest);
    hide *;
    RoundTrip(sequence, v);
  }

  lemma RestoredTotals(a: Accumulator, v: Volume, target: Accumulator, rest: VolumeState)
    requires RemaindersOk(a) && v == Recorded(PrepareCheckpoint(a))
    ensures var b := Restore(target, FromRecord(v, rest));
      && RemaindersOk(b) && ForwardTotal(b) == ForwardTotal(a) && ReverseTotal(b) == ReverseTotal(a)
      && b.state.stateVersion == a.state.stateVersion % UINT64_LIMIT + 1 && b.generation == a.generation && !b.anchorValid
  {
  }
}
