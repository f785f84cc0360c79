/** When a flow that goes on is confirmed as a leak, and that lost data does not end one: what build_result makes of the
    trackers over runs. */
module LeakSustained {
  import opened Bits
  import opened StorageRecord
  import opened LeakTracker
  import opened LeakDetection

  // ---------- A flow that goes on ----------

  /** A usable, new sample of continuous flow, after which no burst is active. */
  predicate Flowing(o: Observed, x: Input) {
    var sample := ContinuousSample(o.s.cfg, x);
    && Enabled(o, EvaluateEvent(x)) && !IsDuplicate(o.s, x) && sample.usable && sample.entry
    && LeakDetection.Evaluate(o.s, x).0.burst.phase != Active
  }

  predicate FlowRun(o: Observed, xs: seq<Input>, end: Observed)
    decreases |xs|
  {
    if xs == [] then end == o
    else Flowing(o, xs[0]) && FlowRun(Step(o, EvaluateEvent(xs[0])), xs[1..], end)
  }

  /** Its tracker is active or clearing without having counted an activation. */
  predicate Bypassed(t: Tracker) {
    IsUp(t) && t.activations == 0
  }

  /** A leak is confirmed by the continuous flow, or is on the way to it: pending since first or before, or active since
      due or before. */
  predicate OnCourse(s: Detection, first: uint64, due: uint64) {
    && TrackerOk(s.continuous)
    && (s.state == Confirmed ==> s.severity == Medium) && s.severity != High
    && (s.state != Confirmed ==> s.severity != Medium)
    && ((s.continuous.phase == Pending && s.state != Confirmed && s.continuous.entryStart <= first && s.lastEvalUs < due)
        || ActiveBy(s, due))
  }

  predicate ActiveBy(s: Detection, due: uint64) {
    s.continuous.phase == Active && s.continuous.activations > 0 && 0 < s.continuous.activeSince <= due
  }

  /** What a flowing sample does to the continuous tracker. */
  lemma FlowingTracks(o: Observed, x: Input)
    requires Inv(o) && Flowing(o, x)
    ensures var t := LeakDetection.Evaluate(o.s, x).0; var u := o.s.continuous;
      && Inv(Step(o, EvaluateEvent(x))) && t.cfg == o.s.cfg && t.lastEvalUs == x.now
      && t.continuous == LeakTracker.Evaluate(u, ContinuousSample(o.s.cfg, x), ContinuousDurations(o.s.cfg))
      && t == Built(Tracked(o.s.(evaluations := o.s.evaluations + 1), x), x)
  {
    hide Inv, LeakTracker.Evaluate, ContinuousSample, BurstSample, LowSample, HighSample, ContinuousDurations, BurstDurations;
    StepKeepsInv(o, EvaluateEvent(x));
    var tracked := Tracked(o.s.(evaluations := o.s.evaluations + 1), x);
    BuiltLeaves(tracked, x);
    hide Built;
  }

  lemma BuiltLeaves(s: Detection, x: Input)
    ensures var t := Built(s, x); t.cfg == s.cfg && t.lastEvalUs == x.now && t.continuous == s.continuous && t.burst == s.burst
  {
    hide Since;
  }

  /** Under an entry sample that is not a clear one, the tracker only moves up. */
  lemma EntryMovesUp(u: Tracker, s: Sample, d: Durations)
    requires TrackerOk(u) && s.usable && s.entry && !s.clear
    ensures var v := LeakTracker.Evaluate(u, s, d);
      && (Underlying(u) == Inactive ==> v.phase == Pending && v.entryStart == s.now)
      && (Underlying(u) == Pending ==>
            if Since(s.now, u.entryStart) >= d.entry then
              v.phase == Active && v.activeSince == s.now && v.activations == 1
            else v.phase == Pending && v.entryStart == u.entryStart)
      && (IsUp(u) ==> v.phase == Active && v.activeSince == u.activeSince && v.activations == u.activations)
  {
    hide Since;
  }

  /** What build_result makes of it, while no burst is active. */
  lemma BuiltOnFlow(s: Detection, x: Input)
    requires Built(s, x).burst.phase != Active && s.continuous.phase != Inactive
    requires (s.state == Normal <==> s.severity == NoSeverity) && (s.state == Suspected <==> s.severity == Low)
    ensures var t := Built(s, x); var c := s.continuous;
      && t.continuous == c && t.burst == s.burst
      && (s.state == Confirmed ==> t.state == Confirmed && t.severity == s.severity)
      && (s.state != Confirmed ==>
            if c.phase == Active && c.activeSince > 0 && Since(x.now, c.activeSince) >= s.cfg.continuousConfirmUs then
              t.state == Confirmed && t.severity == Medium
            else t.state != Confirmed && t.severity != Medium && t.severity != High)
  {
    hide Since;
  }

  lemma EntryIsNotClear(c: LeakConfig, x: Input)
    requires ConfigIsValid(c)
    ensures ContinuousSample(c, x).entry ==> !ContinuousSample(c, x).clear
    ensures ContinuousSample(c, x).now == x.now
  {
  }

  /** What holds of a reachable service before its leak is confirmed. */
  lemma ReachableTracker(o: Observed, x: Input)
    requires Inv(o) && Enabled(o, EvaluateEvent(x))
    ensures TrackerOk(o.s.continuous) && ConfigIsValid(o.s.cfg) && o.s.lastEvalUs <= x.now && x.now > 0
    ensures (o.s.state == Normal <==> o.s.severity == NoSeverity) && (o.s.state == Suspected <==> o.s.severity == Low)
    ensures o.s.state != Confirmed && Underlying(o.s.continuous) == Pending ==>
      o.s.continuous.entryStart <= x.now && Since(x.now, o.s.continuous.entryStart) == x.now - o.s.continuous.entryStart
    ensures o.s.state != Confirmed ==> o.s.continuous.activeSince <= x.now
  {
    var (u, sample) := (o.s.continuous, ContinuousSample(o.s.cfg, x));
    assert sample.now == x.now;
    AppendOrdered(o.samples, sample, o.s.lastEvalUs);
    if o.s.state != Confirmed {
      if Underlying(u) == Pending {
        EntryStartIsPast(o.samples, u.entryStart, sample);
      }
      if u.activations > 0 {
        var i, j :| EntryHeld(o.samples, i, j, u.entryStart) && o.samples[j].usable && o.samples[j].now == u.activeSince
                    && u.activeSince - u.entryStart >= o.s.cfg.continuousSuspectUs;
      }
    }
    hide ContinuousSample, EntryNow, ClearNow;
  }

  /** The first sample puts a service that was not bypassed on course. */
  lemma FirstIsOnCourse(o: Observed, x: Input, due: uint64)
    requires Inv(o) && Flowing(o, x) && o.s.state != Confirmed && !Bypassed(o.s.continuous)
    requires due - x.now >= o.s.cfg.continuousSuspectUs
    ensures OnCourse(LeakDetection.Evaluate(o.s, x).0, x.now, due)
  {
    var sample := ContinuousSample(o.s.cfg, x);
    ReachableTracker(o, x);
    FlowingTracks(o, x);
    EntryIsNotClear(o.s.cfg, x);
    EntryMovesUp(o.s.continuous, sample, ContinuousDurations(o.s.cfg));
    var tracked := Tracked(o.s.(evaluations := o.s.evaluations + 1), x);
    assert tracked.state == o.s.state && tracked.severity == o.s.severity && tracked.cfg == o.s.cfg;
    assert o.s.cfg.continuousSuspectUs > 0;
    TrackerStaysOk(o.s.continuous, sample, ContinuousDurations(o.s.cfg));
    hide Inv, LeakTracker.Evaluate, ContinuousSample, Tracked, Built, ConfigIsValid, LeakDetection.Evaluate;
    BuiltOnFlow(tracked, x);
  }

  /** Each further sample keeps it there, activates it at the latest at the time due, and confirms it at the latest the
      confirm duration after that. */
  lemma NextStaysOnCourse(o: Observed, x: Input, first: uint64, due: uint64)
    requires Inv(o) && Flowing(o, x) && OnCourse(o.s, first, due) && first <= x.now
    requires due - first >= o.s.cfg.continuousSuspectUs
    requires ActiveBy(o.s, due) || x.now <= due
    ensures OnCourse(LeakDetection.Evaluate(o.s, x).0, first, due)
    ensures ActiveBy(o.s, due) || x.now >= due ==> ActiveBy(LeakDetection.Evaluate(o.s, x).0, due)
    ensures ActiveBy(o.s, due) && x.now - due >= o.s.cfg.continuousConfirmUs ==> LeakDetection.Evaluate(o.s, x).0.severity == Medium
  {
    var sample := ContinuousSample(o.s.cfg, x);
    ReachableTracker(o, x);
    FlowingTracks(o, x);
    EntryIsNotClear(o.s.cfg, x);
    EntryMovesUp(o.s.continuous, sample, ContinuousDurations(o.s.cfg));
    var tracked := Tracked(o.s.(evaluations := o.s.evaluations + 1), x);
    assert tracked.state == o.s.state && tracked.severity == o.s.severity && tracked.cfg == o.s.cfg;
    TrackerStaysOk(o.s.continuous, sample, ContinuousDurations(o.s.cfg));
    hide Inv, LeakTracker.Evaluate, ContinuousSample, Tracked, Built, ConfigIsValid, LeakDetection.Evaluate;
    BuiltOnFlow(tracked, x);
  }

  lemma FlowStep(o: Observed, x: Input)
    requires Inv(o) && Flowing(o, x)
    ensures var v := Step(o, EvaluateEvent(x));
      Inv(v) && v.s == LeakDetection.Evaluate(o.s, x).0 && v.s.cfg == o.s.cfg && v.s.lastEvalUs == x.now && o.s.lastEvalUs <= x.now
  {
    FlowingTracks(o, x);
    hide Inv, LeakDetection.Evaluate, ContinuousSample;
  }

  lemma {:induction false} FlowTimes(o: Observed, xs: seq<Input>, end: Observed, k: nat)
    requires Inv(o) && FlowRun(o, xs, end) && k < |xs|
    ensures o.s.lastEvalUs <= xs[k].now
    decreases k
  {
    FlowStep(o, xs[0]);
    hide Inv, Flowing, Step;
    if k > 0 {
      FlowTimes(Step(o, EvaluateEvent(xs[0])), xs[1..], end, k - 1);
    }
  }

  lemma {:induction false} OnCourseRun(o: Observed, xs: seq<Input>, end: Observed, first: uint64, due: uint64, a: int)
    requires Inv(o) && FlowRun(o, xs, end) && xs != [] && OnCourse(o.s, first, due) && first <= o.s.lastEvalUs
    requires due - first >= o.s.cfg.continuousSuspectUs && xs[|xs| - 1].now - due >= o.s.cfg.continuousConfirmUs
    requires ActiveBy(o.s, due) || (0 <= a < |xs| && xs[a].now == due)
    ensures end.s.severity == Medium
    decreases |xs|
  {
    hide *;
    var x := xs[0];
    ConfirmIsPositive(o);
    FlowRunHead(o, xs, end);
    var v := Step(o, EvaluateEvent(x));
    FlowStep(o, x);
    if !ActiveBy(o.s, due) && a > 0 {
      FlowTimes(v, xs[1..], end, a - 1);
    }
    NextStaysOnCourse(o, x, first, due);
    if |xs| > 1 {
      assert xs[1..][|xs| - 2] == xs[|xs| - 1];
      OnCourseRun(v, xs[1..], end, first, due, a - 1);
    } else {
      FlowRunOver(v, xs[1..], end);
    }
  }

  lemma ConfirmIsPositive(o: Observed)
    requires Inv(o)
    ensures 0 < o.s.cfg.continuousSuspectUs && 0 < o.s.cfg.continuousConfirmUs
  {
    hide Evidence, TrackerOk, Ordered;
  }

  lemma FlowRunHead(o: Observed, xs: seq<Input>, end: Observed)
    requires FlowRun(o, xs, end) && xs != []
    ensures Flowing(o, xs[0]) && FlowRun(Step(o, EvaluateEvent(xs[0])), xs[1..], end)
  {
    hide Flowing, Step;
  }

  lemma FlowRunOver(o: Observed, xs: seq<Input>, end: Observed)
    requires FlowRun(o, xs, end) && xs == []
    ensures end == o
  {
  }

  /** A tracker that got round its activation stays active without one for as long as the flow goes on, and the leak is
      suspected for ever. */
  lemma {:induction false} BypassedNeverConfirms(o: Observed, xs: seq<Input>, end: Observed)
    requires Inv(o) && FlowRun(o, xs, end) && o.s.state != Confirmed && Bypassed(o.s.continuous)
    ensures end.s.state != Confirmed && end.s.severity != Medium && Bypassed(end.s.continuous)
    decreases |xs|
  {
    if xs == [] {
      assert o.s.severity != Medium;
    } else {
      BypassedStep(o, xs[0]);
      FlowStep(o, xs[0]);
      hide Inv, Flowing, Step, Bypassed, LeakDetection.Evaluate;
      BypassedNeverConfirms(Step(o, EvaluateEvent(xs[0])), xs[1..], end);
    }
  }

  lemma BypassedStep(o: Observed, x: Input)
    requires Inv(o) && Flowing(o, x) && o.s.state != Confirmed && Bypassed(o.s.continuous)
    ensures var t := LeakDetection.Evaluate(o.s, x).0; t.state != Confirmed && t.severity != Medium && Bypassed(t.continuous)
  {
    var sample := ContinuousSample(o.s.cfg, x);
    ReachableTracker(o, x);
    FlowingTracks(o, x);
    EntryIsNotClear(o.s.cfg, x);
    EntryMovesUp(o.s.continuous, sample, ContinuousDurations(o.s.cfg));
    var tracked := Tracked(o.s.(evaluations := o.s.evaluations + 1), x);
    assert tracked.state == o.s.state && tracked.severity == o.s.severity && tracked.cfg == o.s.cfg;
    hide Inv, LeakTracker.Evaluate, ContinuousSample, Tracked, Built, ConfigIsValid, LeakDetection.Evaluate;
    BuiltOnFlow(tracked, x);
  }

  /** A continuous flow that goes on for the suspect duration from its first sample to sample a, and for the confirm
      duration from there to its last, is confirmed as a MEDIUM leak if and only if the tracker had not got round its
      activation before: that is, by ActiveIff, unless since it was last fresh a pending phase was ended by a sample with
      the clear and without the entry condition. */
  lemma SustainedFlowConfirmsIff(o: Observed, xs: seq<Input>, end: Observed, a: nat)
    requires Inv(o) && o.s.state != Confirmed && FlowRun(o, xs, end) && a < |xs|
    requires xs[a].now - xs[0].now >= o.s.cfg.continuousSuspectUs
    requires xs[|xs| - 1].now - xs[a].now >= o.s.cfg.continuousConfirmUs
    ensures end.s.severity == Medium <==> !Bypassed(o.s.continuous)
  {
    hide *;
    if Bypassed(o.s.continuous) {
      BypassedNeverConfirms(o, xs, end);
    } else {
      var x := xs[0];
      ConfirmIsPositive(o);
      FlowRunHead(o, xs, end);
      FlowStep(o, x);
      FirstIsOnCourse(o, x, xs[a].now);
      assert xs[1..][|xs| - 2] == xs[|xs| - 1] && xs[1..][a - 1] == xs[a];
      OnCourseRun(Step(o, EvaluateEvent(x)), xs[1..], end, x.now, xs[a].now, a - 1);
    }
  }

  // ---------- The same, read off before the run ----------

  /** New, usable readings of continuous flow, in the order of time, for a service that has seen the given sequence and
      time last. */
  predicate Readings(c: LeakConfig, generation: uint32, sequence: uint64, time: uint64, xs: seq<Input>)
    decreases |xs|
  {
    xs != [] ==>
      var x := xs[0];
      && x.now > 0 && x.now >= time && !(x.sequence > 0 && x.sequence == sequence && x.generation == generation)
      && ContinuousSample(c, x).usable && ContinuousSample(c, x).entry
      && Readings(c, generation, if x.sequence > 0 then x.sequence else sequence, x.now, xs[1..])
  }

  /** No burst is under way, or one is pending that the first reading ends. */
  predicate BurstRests(s: Detection, xs: seq<Input>) {
    || Underlying(s.burst) == Inactive
    || (Underlying(s.burst) == Pending && xs != [] && xs[0].flow > s.cfg.burstClear)
  }

  /** A reading of continuous flow is no burst: such a tracker rests from the first one on. */
  lemma BurstStaysAtRest(o: Observed, x: Input, rest: seq<Input>)
    requires Inv(o) && Enabled(o, EvaluateEvent(x)) && !IsDuplicate(o.s, x)
    requires ContinuousSample(o.s.cfg, x).usable && ContinuousSample(o.s.cfg, x).entry && BurstRests(o.s, [x] + rest)
    ensures Flowing(o, x)
    ensures var t := LeakDetection.Evaluate(o.s, x).0;
      && Underlying(t.burst) == Inactive && t.cfg == o.s.cfg && t.lastEvalUs == x.now && t.generation == o.s.generation
      && t.lastFlowSequence == if x.sequence > 0 then x.sequence else o.s.lastFlowSequence
  {
    var tracked := Tracked(o.s.(evaluations := o.s.evaluations + 1), x);
    assert ([x] + rest)[0] == x;
    BurstTurnsToRest(o, x, rest);
    TrackedKeeps(o.s.(evaluations := o.s.evaluations + 1), x);
    hide Inv, Tracked, Built;
    BuiltLeaves(tracked, x);
    BuiltKeepsNames(tracked, x);
    hide ContinuousSample, BurstSample, BurstRests;
  }

  lemma TrackedKeeps(s: Detection, x: Input)
    ensures var t := Tracked(s, x);
      && t.cfg == s.cfg && t.generation == s.generation
      && t.burst == LeakTracker.Evaluate(s.burst, BurstSample(s.cfg, x), BurstDurations(s.cfg))
      && t.lastFlowSequence == if x.sequence > 0 then x.sequence else s.lastFlowSequence
  {
    hide LeakTracker.Evaluate, BurstSample, BurstDurations;
  }

  lemma BurstTurnsToRest(o: Observed, x: Input, rest: seq<Input>)
    requires Inv(o) && ContinuousSample(o.s.cfg, x).usable && ContinuousSample(o.s.cfg, x).entry && BurstRests(o.s, [x] + rest)
    ensures LeakTracker.Evaluate(o.s.burst, BurstSample(o.s.cfg, x), BurstDurations(o.s.cfg)).phase == Inactive
  {
    assert ([x] + rest)[0] == x && TrackerOk(o.s.burst);
    hide Inv, LeakTracker.Evaluate;
    BurstRestsOn(o.s.burst, BurstSample(o.s.cfg, x), BurstDurations(o.s.cfg));
  }

  lemma BurstRestsOn(u: Tracker, s: Sample, d: Durations)
    requires TrackerOk(u) && s.usable && !s.entry
    requires Underlying(u) == Inactive || (Underlying(u) == Pending && !s.clear)
    ensures LeakTracker.Evaluate(u, s, d).phase == Inactive
  {
    hide Since;
  }

  lemma BuiltKeepsNames(s: Detection, x: Input)
    ensures Built(s, x).generation == s.generation && Built(s, x).lastFlowSequence == s.lastFlowSequence
  {
    hide Since;
  }

  lemma {:induction false} ReadingsFlow(o: Observed, xs: seq<Input>) returns (end: Observed)
    requires Inv(o) && BurstRests(o.s, xs)
    requires Readings(o.s.cfg, o.s.generation, o.s.lastFlowSequence, o.s.lastEvalUs, xs)
    ensures FlowRun(o, xs, end)
    decreases |xs|
  {
    if xs == [] {
      end := o;
    } else {
      assert xs == [xs[0]] + xs[1..];
      BurstStaysAtRest(o, xs[0], xs[1..]);
      FlowStep(o, xs[0]);
      hide Inv, LeakDetection.Evaluate, ContinuousSample, Flowing, Step;
      end := ReadingsFlow(Step(o, EvaluateEvent(xs[0])), xs[1..]);
    }
  }

  /** From any reachable service that is not confirmed and whose burst tracker rests: readings of continuous flow over the
      suspect and then the confirm duration are confirmed as MEDIUM if and only if the continuous tracker had not got round
      its activation. */
  lemma SteadyReadingsConfirmIff(o: Observed, xs: seq<Input>, a: nat) returns (end: Observed)
    requires Inv(o) && o.s.state != Confirmed && a < |xs| && BurstRests(o.s, xs)
    requires Readings(o.s.cfg, o.s.generation, o.s.lastFlowSequence, o.s.lastEvalUs, xs)
    requires xs[a].now - xs[0].now >= o.s.cfg.continuousSuspectUs
    requires xs[|xs| - 1].now - xs[a].now >= o.s.cfg.continuousConfirmUs
    ensures FlowRun(o, xs, end) && (end.s.severity == Medium <==> !Bypassed(o.s.continuous))
  {
    hide *;
    end := ReadingsFlow(o, xs);
    SustainedFlowConfirmsIff(o, xs, end, a);
  }

  /** The continuous tracker is what its samples since it was last made fresh have made of it. */
  ghost predicate Tracks(o: Observed, ds: seq<Durations>) {
    |ds| == |o.samples| && o.s.continuous == EvaluateEach(FRESH, o.samples, ds)
  }

  lemma TracksStep(o: Observed, e: Event, ds: seq<Durations>) returns (ds': seq<Durations>)
    requires Tracks(o, ds)
    ensures Tracks(Step(o, e), ds')
  {
    match e
    case EvaluateEvent(x) =>
      if IsDuplicate(o.s, x) {
        ds' := ds;
      } else {
        ds' := ds + [ContinuousDurations(o.s.cfg)];
        var h := o.samples + [ContinuousSample(o.s.cfg, x)];
        assert h[..|o.samples|] == o.samples && ds'[..|ds|] == ds;
        BuiltLeaves(Tracked(o.s.(evaluations := o.s.evaluations + 1), x), x);
        hide Built, ContinuousSample, ContinuousDurations, LeakTracker.Evaluate;
      }
    case ConfigEvent(c, now) =>
      ds' := if ConfigIsValid(c) && o.s.state != Confirmed then [] else ds;
      hide ConfigIsValid;
    case ResetEvent(_, _) =>
      ds' := [];
  }

  lemma {:induction false} RunTracks(o: Observed, events: seq<Event>, end: Observed, ds: seq<Durations>)
      returns (ds': seq<Durations>)
    requires Tracks(o, ds) && IsRun(o, events, end)
    ensures Tracks(end, ds')
    decreases |events|
  {
    hide Tracks, Step, Enabled;
    if events == [] {
      ds' := ds;
    } else {
      var next := TracksStep(o, events[0], ds);
      ds' := RunTracks(Step(o, events[0]), events[1..], end, next);
    }
  }

  /** In every run the condition of SustainedFlowConfirmsIff can be read off the samples seen so far. */
  lemma BypassedIff(c: LeakConfig, start: uint64, events: seq<Event>, o: Observed) returns (ds: seq<Durations>)
    requires IsRun(Observed(InitialDetection(c, start), []), events, o)
    ensures Tracks(o, ds) && (Bypassed(o.s.continuous) <==> WasBypassed(o.samples, ds))
  {
    assert Tracks(Observed(InitialDetection(c, start), []), []);
    ds := RunTracks(Observed(InitialDetection(c, start), []), events, o, []);
    ActiveIff(o.samples, ds);
    hide EvaluateEach, WasBypassed;
  }

  // ---------- Flow data that is lost ----------

  /** Evaluations without usable flow data, and new configurations. */
  predicate Losing(e: Event) {
    match e
    case EvaluateEvent(x) => !x.flowUsable
    case ConfigEvent(_, _) => true
    case ResetEvent(_, _) => false
  }

  predicate HasActivation(s: Detection) {
    s.continuous.activations > 0 || s.burst.activations > 0
  }

  lemma LosingStep(o: Observed, e: Event)
    requires Inv(o) && Enabled(o, e) && Losing(e) && o.s.state == Confirmed && HasActivation(o.s)
    ensures Step(o, e).s.state == Confirmed && HasActivation(Step(o, e).s)
  {
    match e
    case EvaluateEvent(x) =>
      LostFlowKeepsConfirmed(o.s, x);
      ActivationsKept(o.s, x);
      hide Inv, LeakDetection.Evaluate, ContinuousSample;
    case ConfigEvent(c, now) =>
      hide Inv, ConfigIsValid;
  }

  lemma ActivationsKept(s: Detection, x: Input)
    requires !x.flowUsable && TrackerOk(s.continuous) && TrackerOk(s.burst) && HasActivation(s)
    ensures HasActivation(LeakDetection.Evaluate(s, x).0)
  {
    if s.continuous.activations > 0 {
      ActivationOutlivesLoss(s.continuous, ContinuousSample(s.cfg, x), ContinuousDurations(s.cfg));
    } else {
      ActivationOutlivesLoss(s.burst, BurstSample(s.cfg, x), BurstDurations(s.cfg));
    }
    hide LeakTracker.Evaluate;
  }

  /** Lost data never ends a confirmed leak while a flow tracker counts an activation, however long it lasts and however
      often the configuration changes meanwhile. */
  lemma {:induction false} LostDataNeverEndsALeak(o: Observed, events: seq<Event>, end: Observed)
    requires Inv(o) && o.s.state == Confirmed && HasActivation(o.s) && IsRun(o, events, end)
    requires forall k :: 0 <= k < |events| ==> Losing(events[k])
    ensures end.s.state == Confirmed && HasActivation(end.s)
    decreases |events|
  {
    hide Inv, Step, Enabled, Losing, HasActivation;
    if events != [] {
      StepKeepsInv(o, events[0]);
      LosingStep(o, events[0]);
      LostDataNeverEndsALeak(Step(o, events[0]), events[1..], end);
    }
  }
}
