/** The leak state machine of leak_detection.c over its four evidence trackers. */
module LeakDetection {
  import opened Bits
  import opened StorageRecord
  import opened LeakTracker

  datatype LeakState = Normal | Suspected | Confirmed

  datatype Reason = NoReason | ContinuousFlow | HighFlowBurst

  datatype Severity = NoSeverity | Low | Medium | High

  datatype EvalStatus = EvalNotReady | EvalActive | EvalDegraded | EvalUnavailable

  datatype UpdateStatus = ResultChanged | RejectedDuplicate

  datatype LeakConfig = LeakConfig(
    continuousEntry: int64, continuousClear: int64, continuousSuspectUs: uint64, continuousConfirmUs: uint64,
    continuousClearUs: uint64, burstEntry: int64, burstClear: int64, burstConfirmUs: uint64, burstClearUs: uint64,
    pressureAssist: bool, lowEntry: int64, lowClear: int64, highEntry: int64, highClear: int64,
    pressureActivationUs: uint64, pressureClearUs: uint64, maximumGapUs: uint64, versionsNonzero: bool, agesNonzero: bool)

  datatype Input = Input(
    now: uint64, sequence: uint64, generation: uint32, flowUsable: bool, flow: int64, forward: bool,
    pressureUsable: bool, pressure: int64, flowVersion: uint64)

  datatype Detection = Detection(
    cfg: LeakConfig, state: LeakState, evalStatus: EvalStatus, reason: Reason, severity: Severity,
    stateVersion: nat, changeSequence: nat, stateEnteredUs: uint64, generation: uint32,
    lastFlowSequence: uint64, lastEvalUs: uint64, evaluations: nat,
    continuous: Tracker, burst: Tracker, lowPressure: Tracker, highPressure: Tracker)

  /** LeakConfig_Validate. */
  predicate ConfigIsValid(c: LeakConfig) {
    && c.versionsNonzero && c.continuousClear < c.continuousEntry < c.burstEntry && c.burstClear < c.burstEntry
    && 0 < c.continuousSuspectUs <= c.continuousConfirmUs && c.burstConfirmUs > 0 && c.agesNonzero
    && c.lowEntry < c.highEntry
  }

  function InitialDetection(c: LeakConfig, now: uint64): Detection {
    Detection(c, Normal, EvalNotReady, NoReason, NoSeverity, 1, 0, now, 1, 0, now, 0, FRESH, FRESH, FRESH, FRESH)
  }

  // ---------- The trackers' conditions ----------

  function ContinuousSample(c: LeakConfig, x: Input): Sample {
    Sample(x.now, x.flowUsable && x.forward && c.continuousEntry <= x.flow < c.burstEntry,
           x.flowUsable && x.flow <= c.continuousClear, x.flowUsable)
  }

  function ContinuousDurations(c: LeakConfig): Durations {
    Durations(c.continuousSuspectUs, c.continuousClearUs, c.maximumGapUs)
  }

  function BurstSample(c: LeakConfig, x: Input): Sample {
    Sample(x.now, x.flowUsable && x.forward && x.flow >= c.burstEntry, x.flowUsable && x.flow <= c.burstClear, x.flowUsable)
  }

  function BurstDurations(c: LeakConfig): Durations {
    Durations(c.burstConfirmUs, c.burstClearUs, c.maximumGapUs)
  }

  function LowSample(c: LeakConfig, x: Input): Sample {
    Sample(x.now, x.pressureUsable && x.pressure <= c.lowEntry, x.pressureUsable && x.pressure >= c.lowClear, x.pressureUsable)
  }

  function HighSample(c: LeakConfig, x: Input): Sample {
    Sample(x.now, x.pressureUsable && x.pressure >= c.highEntry, x.pressureUsable && x.pressure <= c.highClear,
           x.pressureUsable)
  }

  function PressureDurations(c: LeakConfig): Durations {
    Durations(c.pressureActivationUs, c.pressureClearUs, c.maximumGapUs)
  }

  // ---------- The state machine ----------

  function Entered(s: Detection, state: LeakState, reason: Reason, severity: Severity, now: uint64): Detection {
    s.(state := state, reason := reason, severity := severity, changeSequence := s.changeSequence + 1, stateEnteredUs := now)
  }

  function FromNormal(s: Detection, now: uint64): Detection {
    if s.state != Normal then s
    else if s.burst.phase == Active then Entered(s, Confirmed, HighFlowBurst, High, now)
    else if s.continuous.phase == Active then Entered(s, Suspected, ContinuousFlow, Low, now)
    else s
  }

  /** The confirmation of a suspected continuous leak keeps its reason. */
  function FromSuspected(s: Detection, now: uint64): Detection {
    if s.state != Suspected then s
    else if s.burst.phase == Active then Entered(s, Confirmed, HighFlowBurst, High, now)
    else if s.continuous.phase == Active then
      if s.continuous.activeSince > 0 && Since(now, s.continuous.activeSince) >= s.cfg.continuousConfirmUs then
        Entered(s, Confirmed, s.reason, Medium, now)
      else s
    else if s.continuous.phase == Inactive then Entered(s, Normal, NoReason, NoSeverity, now)
    else s
  }

  function FromConfirmed(s: Detection, now: uint64): Detection {
    if s.state == Confirmed && s.continuous.phase == Inactive && s.burst.phase == Inactive then
      Entered(s, Normal, NoReason, NoSeverity, now)
    else s
  }

  /** build_result. */
  function Built(s: Detection, x: Input): Detection {
    var t := FromConfirmed(FromSuspected(FromNormal(s, x.now), x.now), x.now);
    var status :=
      if t.stateVersion == 1 && t.evaluations == 0 then EvalNotReady
      else if !x.flowUsable then EvalUnavailable
      else if !x.pressureUsable && t.cfg.pressureAssist then EvalDegraded
      else EvalActive;
    t.(lastEvalUs := x.now, evalStatus := status, stateVersion := t.stateVersion + 1)
  }

  predicate IsDuplicate(s: Detection, x: Input) {
    x.sequence > 0 && x.sequence == s.lastFlowSequence && x.generation == s.generation
  }

  /** The four trackers, each on its own condition and durations. */
  function Tracked(s: Detection, x: Input): Detection {
    s.(lastFlowSequence := if x.sequence > 0 then x.sequence else s.lastFlowSequence,
       continuous := LeakTracker.Evaluate(s.continuous, ContinuousSample(s.cfg, x), ContinuousDurations(s.cfg)),
       burst := LeakTracker.Evaluate(s.burst, BurstSample(s.cfg, x), BurstDurations(s.cfg)),
       lowPressure := LeakTracker.Evaluate(s.lowPressure, LowSample(s.cfg, x), PressureDurations(s.cfg)),
       highPressure := LeakTracker.Evaluate(s.highPressure, HighSample(s.cfg, x), PressureDurations(s.cfg)))
  }

  /** LeakDetection_Evaluate. */
  function Evaluate(s: Detection, x: Input): (Detection, UpdateStatus) {
    var counted := s.(evaluations := s.evaluations + 1);
    if IsDuplicate(s, x) then (counted, RejectedDuplicate)
    else (Built(Tracked(counted, x), x), ResultChanged)
  }

  /** LeakDetection_ApplyConfig: a confirmed leak keeps its flow trackers. */
  function ApplyConfig(s: Detection, c: LeakConfig, now: uint64): (Detection, bool) {
    if !ConfigIsValid(c) then (s, false)
    else
      var t := s.(cfg := c, lowPressure := FRESH, highPressure := FRESH, lastEvalUs := now);
      (if s.state != Confirmed then t.(continuous := FRESH, burst := FRESH) else t, true)
  }

  /** LeakDetection_Reset. */
  function Reset(s: Detection, generation: uint32, now: uint64): Detection {
    s.(state := Normal, evalStatus := EvalNotReady, reason := NoReason, severity := NoSeverity, changeSequence := 0,
       stateEnteredUs := now, generation := generation, continuous := FRESH, burst := FRESH, lowPressure := FRESH,
       highPressure := FRESH, lastFlowSequence := 0, lastEvalUs := now)
  }

  // ---------- Runs ----------

  datatype Event = EvaluateEvent(input: Input) | ConfigEvent(cfg: LeakConfig, now: uint64) | ResetEvent(generation: uint32, now: uint64)

  /** The service, and the samples its continuous-flow tracker has seen since it was last made fresh. */
  datatype Observed = Observed(s: Detection, samples: seq<Sample>)

  function TimeOf(e: Event): uint64 {
    match e
    case EvaluateEvent(x) => x.now
    case ConfigEvent(_, now) => now
    case ResetEvent(_, now) => now
  }

  /** Time is monotonic and has started. */
  predicate Enabled(o: Observed, e: Event) {
    TimeOf(e) > 0 && TimeOf(e) >= o.s.lastEvalUs
  }

  function Step(o: Observed, e: Event): Observed {
    match e
    case EvaluateEvent(x) =>
      Observed(Evaluate(o.s, x).0, if IsDuplicate(o.s, x) then o.samples else o.samples + [ContinuousSample(o.s.cfg, x)])
    case ConfigEvent(c, now) =>
      var (t, ok) := ApplyConfig(o.s, c, now);
      Observed(t, if ok && o.s.state != Confirmed then [] else o.samples)
    case ResetEvent(generation, now) => Observed(Reset(o.s, generation, now), [])
  }

  /** What every tracker's fields agree on, whatever its durations have been. */
  predicate TrackerOk(t: Tracker) {
    && (t.phase == Inactive ==> t.activations == 0 && t.activeSince == 0)
    && (t.phase == Suspended ==> t.suspendedFrom != Inactive && t.suspendedFrom != Suspended)
    && (t.activations == 0 <==> t.activeSince == 0)
    && (Underlying(t) == Pending ==> t.activations == 0)
  }

  lemma TrackerStaysOk(t: Tracker, s: Sample, d: Durations)
    requires TrackerOk(t) && s.now > 0
    ensures TrackerOk(LeakTracker.Evaluate(t, s, d))
  {
  }

  /** The severity fits the state, and until a leak is confirmed the continuous tracker's evidence is of the present
      configuration. */
  ghost predicate Inv(o: Observed) {
    var s := o.s;
    && ConfigIsValid(s.cfg) && TrackerOk(s.continuous) && TrackerOk(s.burst)
    && Ordered(o.samples) && (forall k :: 0 <= k < |o.samples| ==> o.samples[k].now <= s.lastEvalUs)
    && (s.state == Normal <==> s.severity == NoSeverity) && (s.state == Suspected <==> s.severity == Low)
    && (s.state != Confirmed ==> Evidence(s.continuous, o.samples, ContinuousDurations(s.cfg)))
  }

  lemma FreshEvidence(t: Tracker, h: seq<Sample>, d: Durations)
    requires t.phase == Inactive && TrackerOk(t)
    ensures Evidence(t, h, d)
  {
  }

  lemma AppendOrdered(h: seq<Sample>, s: Sample, last: uint64)
    requires Ordered(h) && (forall k :: 0 <= k < |h| ==> h[k].now <= last) && last <= s.now
    ensures Ordered(h + [s]) && forall k :: 0 <= k < |h + [s]| ==> (h + [s])[k].now <= s.now
  {
  }

  /** What build_result can do to the state. */
  lemma BuiltCases(s: Detection, x: Input)
    requires (s.state == Normal <==> s.severity == NoSeverity) && (s.state == Suspected <==> s.severity == Low)
    ensures var t := Built(s, x);
      && (t.state == Normal <==> t.severity == NoSeverity) && (t.state == Suspected <==> t.severity == Low)
      && t.continuous == s.continuous && t.burst == s.burst && t.cfg == s.cfg && t.lastEvalUs == x.now
      && (s.state == Confirmed && t.state != Confirmed ==> s.continuous.phase == Inactive && t.state == Normal)
      && (t.severity == Medium && s.severity != Medium ==>
            && s.state != Confirmed && s.continuous.phase == Active && s.continuous.activeSince > 0
            && Since(x.now, s.continuous.activeSince) >= s.cfg.continuousConfirmUs)
  {
  }

  lemma EvaluateKeepsInv(o: Observed, x: Input)
    requires Inv(o) && Enabled(o, EvaluateEvent(x))
    ensures Inv(Step(o, EvaluateEvent(x)))
  {
    hide Inv, Tracked, Built, TrackedOk, ContinuousSample;
    if IsDuplicate(o.s, x) {
      CountedKeeps(o);
    } else {
      TrackedKeeps(o, x);
      BuiltKeeps(Tracked(o.s.(evaluations := o.s.evaluations + 1), x), o.samples + [ContinuousSample(o.s.cfg, x)], x);
    }
  }

  lemma CountedKeeps(o: Observed)
    requires Inv(o)
    ensures Inv(o.(s := o.s.(evaluations := o.s.evaluations + 1)))
  {
    hide Evidence, TrackerOk, Ordered, ConfigIsValid;
  }

  /** The invariant between the trackers' update and the state's. */
  ghost predicate TrackedOk(t: Detection, samples: seq<Sample>, now: uint64) {
    && ConfigIsValid(t.cfg) && TrackerOk(t.continuous) && TrackerOk(t.burst)
    && Ordered(samples) && (forall k :: 0 <= k < |samples| ==> samples[k].now <= now)
    && (t.state == Normal <==> t.severity == NoSeverity) && (t.state == Suspected <==> t.severity == Low)
    && (t.state != Confirmed || t.continuous.phase == Inactive ==> Evidence(t.continuous, samples, ContinuousDurations(t.cfg)))
  }

  lemma TrackedKeeps(o: Observed, x: Input)
    requires Inv(o) && Enabled(o, EvaluateEvent(x))
    ensures TrackedOk(Tracked(o.s.(evaluations := o.s.evaluations + 1), x), o.samples + [ContinuousSample(o.s.cfg, x)], x.now)
  {
    var s := o.s;
    var (sample, d) := (ContinuousSample(s.cfg, x), ContinuousDurations(s.cfg));
    var t := Tracked(s.(evaluations := s.evaluations + 1), x);
    assert sample.now == x.now;
    AppendOrdered(o.samples, sample, s.lastEvalUs);
    TrackerStaysOk(s.continuous, sample, d);
    TrackerStaysOk(s.burst, BurstSample(s.cfg, x), BurstDurations(s.cfg));
    if s.state != Confirmed {
      EvaluateKeeps(s.continuous, o.samples, sample, d);
    } else if t.continuous.phase == Inactive {
      FreshEvidence(t.continuous, o.samples + [sample], d);
    }
    hide Evidence, TrackerOk, Ordered, ConfigIsValid, LeakTracker.Evaluate, ContinuousSample, BurstSample;
  }

  lemma BuiltKeeps(t: Detection, samples: seq<Sample>, x: Input)
    requires TrackedOk(t, samples, x.now)
    ensures Inv(Observed(Built(t, x), samples))
  {
    BuiltCases(t, x);
    hide Built, Evidence, TrackerOk, Ordered, ConfigIsValid;
  }

  lemma StepKeepsInv(o: Observed, e: Event)
    requires Inv(o) && Enabled(o, e)
    ensures Inv(Step(o, e))
  {
    match e
    case EvaluateEvent(x) => EvaluateKeepsInv(o, x);
    case ConfigEvent(c, now) =>
      if o.s.state != Confirmed {
        FreshEvidence(FRESH, [], ContinuousDurations(c));
      }
      hide Evidence, ConfigIsValid;
    case ResetEvent(_, _) =>
      FreshEvidence(FRESH, [], ContinuousDurations(o.s.cfg));
      hide Evidence, ConfigIsValid;
  }

  ghost predicate IsRun(o: Observed, events: seq<Event>, end: Observed)
    decreases |events|
  {
    if events == [] then end == o else Enabled(o, events[0]) && IsRun(Step(o, events[0]), events[1..], end)
  }

  lemma {:induction false} RunKeepsInv(o: Observed, events: seq<Event>, end: Observed)
    requires Inv(o) && IsRun(o, events, end)
    ensures Inv(end)
    decreases |events|
  {
    hide Inv, Step, Enabled;
    if events != [] {
      StepKeepsInv(o, events[0]);
      RunKeepsInv(Step(o, events[0]), events[1..], end);
    }
  }

  lemma InitialInv(c: LeakConfig, now: uint64)
    requires ConfigIsValid(c)
    ensures Inv(Observed(InitialDetection(c, now), []))
  {
    FreshEvidence(FRESH, [], ContinuousDurations(c));
  }

  // ---------- What a confirmed leak means ----------

  /** In every run of evaluations, configurations and resets: a continuous leak is confirmed only at a time at least the
      suspect and the confirm duration after a usable entry sample, from which every usable sample up to the activation
      met the entry condition. */
  lemma MediumIsEarned(c: LeakConfig, start: uint64, events: seq<Event>, o: Observed, x: Input)
    returns (i: int, j: int)
    requires ConfigIsValid(c) && IsRun(Observed(InitialDetection(c, start), []), events, o)
    requires Enabled(o, EvaluateEvent(x))
    requires Evaluate(o.s, x).0.severity == Medium && o.s.severity != Medium
    ensures var samples := o.samples + [ContinuousSample(o.s.cfg, x)];
      && 0 <= i <= j < |samples| && EntryHeld(samples, i, j, samples[i].now)
      && samples[j].now - samples[i].now >= o.s.cfg.continuousSuspectUs
      && x.now - samples[j].now >= o.s.cfg.continuousConfirmUs
  {
    InitialInv(c, start);
    RunKeepsInv(Observed(InitialDetection(c, start), []), events, o);
    hide *;
    i, j := MediumStep(o, x);
  }

  lemma MediumStep(o: Observed, x: Input) returns (i: int, j: int)
    requires Inv(o) && Enabled(o, EvaluateEvent(x))
    requires Evaluate(o.s, x).0.severity == Medium && o.s.severity != Medium
    ensures var samples := o.samples + [ContinuousSample(o.s.cfg, x)];
      && 0 <= i <= j < |samples| && EntryHeld(samples, i, j, samples[i].now)
      && samples[j].now - samples[i].now >= o.s.cfg.continuousSuspectUs
      && x.now - samples[j].now >= o.s.cfg.continuousConfirmUs
  {
    var s := o.s;
    var (sample, d) := (ContinuousSample(s.cfg, x), ContinuousDurations(s.cfg));
    AppendOrdered(o.samples, sample, s.lastEvalUs);
    BuiltCases(Tracked(s.(evaluations := s.evaluations + 1), x), x);
    var u := LeakTracker.Evaluate(s.continuous, sample, d);
    assert s.state != Confirmed && u.activeSince > 0 && Since(x.now, u.activeSince) >= s.cfg.continuousConfirmUs;
    assert sample.now == x.now && d.entry == s.cfg.continuousSuspectUs;
    hide Evaluate, LeakTracker.Evaluate, ContinuousSample, Tracked;
    EvaluateKeeps(s.continuous, o.samples, sample, d);
    i, j := WhereSustained(o.samples + [sample], u, d, x.now);
  }

  lemma WhereSustained(samples: seq<Sample>, t: Tracker, d: Durations, now: uint64) returns (i: int, j: int)
    requires Evidence(t, samples, d) && t.activeSince > 0
    requires forall k :: 0 <= k < |samples| ==> samples[k].now <= now
    ensures 0 <= i <= j < |samples| && EntryHeld(samples, i, j, samples[i].now)
    ensures samples[j].now - samples[i].now >= d.entry && now - samples[j].now == Since(now, t.activeSince)
  {
    i, j :| EntryHeld(samples, i, j, t.entryStart) && samples[j].usable && samples[j].now == t.activeSince
            && t.activeSince - t.entryStart >= d.entry;
  }

  /** Missing flow data alone never ends a confirmed leak while one of its flow trackers counts an activation. */
  lemma LostFlowKeepsConfirmed(s: Detection, x: Input)
    requires s.state == Confirmed && !x.flowUsable && (s.continuous.activations > 0 || s.burst.activations > 0)
    requires TrackerOk(s.continuous) && TrackerOk(s.burst)
    requires (s.state == Normal <==> s.severity == NoSeverity) && (s.state == Suspected <==> s.severity == Low)
    ensures Evaluate(s, x).0.state == Confirmed
  {
    if !IsDuplicate(s, x) {
      var t := Tracked(s.(evaluations := s.evaluations + 1), x);
      BuiltCases(t, x);
      if s.continuous.activations > 0 {
        ActivationOutlivesLoss(s.continuous, ContinuousSample(s.cfg, x), ContinuousDurations(s.cfg));
      } else {
        ActivationOutlivesLoss(s.burst, BurstSample(s.cfg, x), BurstDurations(s.cfg));
      }
      hide Built, LeakTracker.Evaluate;
    }
  }

  /** A counted activation is only ever lost at a usable sample. */
  lemma ActivationOutlivesLoss(t: Tracker, s: Sample, d: Durations)
    requires TrackerOk(t) && t.activations > 0 && !s.usable
    ensures var u := LeakTracker.Evaluate(t, s, d); u.activations == t.activations && u.phase != Inactive
  {
  }
}
