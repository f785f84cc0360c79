/** One dispatched event of measurement_manager.c: flow, volume and leak are computed on copies and published together,
    in one transaction, or not at all. */
module MeasurementManager {
  import opened Bits
  import opened StorageRecord
  import opened VolumeAccumulator
  import opened LeakDetection
  import opened RepoTransaction

  datatype Manager = Manager(repo: Repository, volume: Accumulator, leak: Detection, bound: bool)

  /** The raw flow sample's own identity and times. */
  datatype Raw = Raw(completionUs: uint64, sequence: uint64, generation: uint32)

  /** What the registered services leave in the candidate; none of them computes flow, volume or leak. */
  datatype Side = Side(pressure: int64, pressureUsable: bool, temperature: int, mode: int, power: int)

  datatype Work =
    | FlowReady(raw: Option<Raw>, flow: Option<Flow>)
    | PressureReady(pressure: Option<(int64, bool)>)
    | OtherWork

  /** An event, with what the services and drivers make of it. */
  datatype Dispatched = Dispatched(work: Work, serviceFails: bool, handled: bool, side: Option<Side>)

  datatype Posted = FlowResultReady | VolumeUpdated | LeakResultUpdated | PressureResultReady

  datatype Outcome = Outcome(returned: bool, committed: bool, posted: seq<Posted>)

  const NOTHING_DONE := Outcome(false, false, [])

  const SIDE_FIELDS: set<Field> := {PressureField, TemperatureField, ModeField, PowerField}

  function WithSide(s: Snapshot, x: Side): Snapshot {
    s.(pressure := x.pressure, pressureUsable := x.pressureUsable, temperature := x.temperature, mode := x.mode,
       power := x.power)
  }

  function LeakInput(raw: Raw, s: Snapshot): LeakDetection.Input {
    LeakDetection.Input(raw.completionUs, raw.sequence, raw.generation,
                        s.flow.meta.valid && s.flow.meta.recent && s.flow.meta.accepted, s.flow.rate, s.flow.forward,
                        s.pressureUsable, s.pressure, s.flow.meta.version)
  }

  /** LeakDetection_GetResult. */
  function LeakResultOf(s: Detection, x: LeakDetection.Input, volumeVersion: nat, snapshotVersion: nat): LeakResult {
    LeakResult(s.stateVersion, s.changeSequence, s.state, s.evalStatus, s.reason, s.severity, s.stateEnteredUs,
               s.lastEvalUs, snapshotVersion, x.flowVersion, volumeVersion, s.generation)
  }

  /** The candidates of one flow sample: the next accumulator and leak service, and the snapshot they make. */
  datatype Candidates = Candidates(volume: Accumulator, leak: Detection, snapshot: Snapshot)

  predicate VolumeTaken(s: VolumeAccumulator.Status) {
    s == VolumeOk || s == Anchored || s == ZeroInterval
  }

  /** Flow, volume and leak in turn, each seeing what came before; None if one of them fails. */
  function FlowChain(live: Accumulator, leakLive: Detection, raw: Raw, flow: Flow, candidate: Snapshot, inputVersion: nat): Option<Candidates> {
    var withFlow := candidate.(flow := flow);
    var (volume, status) := VolumeAccumulator.Consume(live, withFlow.flow);
    if !VolumeTaken(status) then None
    else
      var withVolume := withFlow.(volume := volume.state);
      var x := LeakInput(raw, withFlow);
      var (leak, _) := LeakDetection.Evaluate(leakLive, x);
      var result := LeakResultOf(leak, x, volume.state.stateVersion, inputVersion);
      Some(Candidates(volume, leak, withVolume.(leak := result)))
  }

  /** What the event leaves in the candidate snapshot: None if it fails. */
  function Computed(m: Manager, d: Dispatched, base: Snapshot): Option<(Snapshot, Option<Candidates>, set<Field>)> {
    var s := if d.side.Some? then WithSide(base, d.side.value) else base;
    var fields := if d.side.Some? then SIDE_FIELDS else {};
    if d.serviceFails then None
    else
      match d.work
      case OtherWork => Some((s, None, fields))
      case PressureReady(pressure) =>
        if pressure.None? then None
        else Some((s.(pressure := pressure.value.0, pressureUsable := pressure.value.1), None, fields + {PressureField}))
      case FlowReady(raw, flow) =>
        if !m.bound || raw.None? || flow.None? then None
        else
          var chain := FlowChain(m.volume, m.leak, raw.value, flow.value, s, base.version);
          if chain.None? then None
          else Some((chain.value.snapshot, chain, fields + {FlowField, VolumeField, LeakField}))
  }

  /** measurement_manager_process_event. */
  function ProcessEvent(m: Manager, d: Dispatched): (Manager, Outcome)
    requires RepoOk(m.repo)
  {
    var (t, r, begun) := Begin(FRESH_TXN, m.repo);
    if !begun then (m, NOTHING_DONE)
    else
      match Computed(m, d, Visible(m.repo))
      case None => (m.(repo := Abort(t, r).1), NOTHING_DONE)
      case Some((after, candidates, fields)) =>
        if fields == {} then (m.(repo := Abort(t, r).1), Outcome(d.handled, false, []))
        else
          var (u, s, _) := Write(t, r, fields, after);
          var (_, committed, ok) := Commit(u, s);
          if !ok then (m.(repo := committed), NOTHING_DONE)
          else
            (Manager(committed, if candidates.Some? then candidates.value.volume else m.volume,
                     if candidates.Some? then candidates.value.leak else m.leak, m.bound),
             Outcome(d.handled, true,
                     (if candidates.Some? then [FlowResultReady, VolumeUpdated, LeakResultUpdated] else [])
                     + (if d.work.PressureReady? then [PressureResultReady] else [])))
  }

  // ---------- Coherence ----------

  /** The leak result was computed from this volume and this flow, the volume last consumed this flow, and it is what
      the live accumulator holds. */
  predicate Coherent(s: Snapshot, live: Accumulator) {
    && s.leak.volumeVersion == s.volume.stateVersion && s.leak.flowVersion == s.flow.meta.version
    && s.volume.lastFlowSequence == s.flow.meta.sequence && s.volume == live.state
  }

  predicate SameChain(a: Snapshot, b: Snapshot) {
    a.flow == b.flow && a.volume == b.volume && a.leak == b.leak
  }

  lemma ConsumedIsNamed(a: Accumulator, f: Flow)
    requires VolumeTaken(VolumeAccumulator.Consume(a, f).1)
    ensures VolumeAccumulator.Consume(a, f).0.state.lastFlowSequence == f.meta.sequence
  {
  }

  lemma ChainIsCoherent(live: Accumulator, leakLive: Detection, raw: Raw, flow: Flow, candidate: Snapshot, version: nat)
    ensures match FlowChain(live, leakLive, raw, flow, candidate, version)
      case Some(c) => Coherent(c.snapshot, c.volume)
      case None => true
  {
    if VolumeTaken(VolumeAccumulator.Consume(live, flow).1) {
      ConsumedIsNamed(live, flow);
    }
    hide VolumeAccumulator.Consume, LeakDetection.Evaluate;
  }

  lemma SidePatches(s: Snapshot, x: Side)
    ensures Patched(s, SIDE_FIELDS, WithSide(s, x)) == WithSide(s, x)
  {
  }

  /** An event writes what it computed, field by field. */
  lemma ComputedPatches(m: Manager, d: Dispatched, base: Snapshot)
    ensures match Computed(m, d, base)
      case Some((after, _, fields)) => Patched(base, fields, after) == after
      case None => true
  {
    hide VolumeAccumulator.Consume, LeakDetection.Evaluate, LeakResultOf, LeakInput;
  }

  /** What one event does, in terms of what readers see. */
  lemma ProcessCases(m: Manager, d: Dispatched)
    requires RepoOk(m.repo) && !m.repo.writerActive
    ensures var (n, outcome) := ProcessEvent(m, d);
      var computed := Computed(m, d, Visible(m.repo));
      && RepoOk(n.repo) && !n.repo.writerActive && n.bound == m.bound
      && (outcome.committed <==> computed.Some? && computed.value.2 != {})
      && (!outcome.committed ==> Visible(n.repo) == Visible(m.repo) && n.volume == m.volume && n.leak == m.leak
                                 && n.repo.version == m.repo.version && outcome.posted == [])
      && (outcome.committed ==>
            && Visible(n.repo) == computed.value.0.(version := m.repo.version + 1)
            && (computed.value.1.Some? ==> n.volume == computed.value.1.value.volume && n.leak == computed.value.1.value.leak)
            && (computed.value.1.None? ==> n.volume == m.volume && n.leak == m.leak))
  {
    BeginOwns(FRESH_TXN, m.repo);
    var (t, r, begun) := Begin(FRESH_TXN, m.repo);
    AbortForgets(t, r);
    var computed := Computed(m, d, Visible(m.repo));
    if computed.Some? {
      ComputedPatches(m, d, Visible(m.repo));
      WriteIsPrivate(t, r, computed.value.2, computed.value.0);
      var (u, s, _) := Write(t, r, computed.value.2, computed.value.0);
      CommitPublishes(u, s);
    }
    hide Begin, Abort, Commit, Write, Computed, InProgress;
  }

  /** A flow event that fails, at whatever step, changes neither what readers see nor the live accumulator and leak
      state; and one commits exactly when the services succeed, the pipeline is bound, the drivers deliver, and the sample
      passes the guards of the volume step. */
  lemma FailedEventChangesNothing(m: Manager, d: Dispatched)
    requires RepoOk(m.repo) && !m.repo.writerActive && d.work.FlowReady? && RemaindersOk(m.volume)
    ensures var (n, outcome) := ProcessEvent(m, d);
      && (!outcome.committed ==> Visible(n.repo) == Visible(m.repo) && n.volume == m.volume && n.leak == m.leak)
      && (outcome.committed ==> n.volume == VolumeAccumulator.Consume(m.volume, d.work.flow.value).0)
      && (outcome.committed <==>
            && !d.serviceFails && m.bound && d.work.raw.Some? && d.work.flow.Some? && Takes(m.volume, d.work.flow.value))
      && (outcome.committed <==> outcome.posted == [FlowResultReady, VolumeUpdated, LeakResultUpdated])
  {
    ProcessCases(m, d);
    if d.work.flow.Some? {
      TakenIff(m.volume, d.work.flow.value);
    }
    hide VolumeAccumulator.Consume, LeakDetection.Evaluate, Visible, RepoOk, Takes;
  }

  // ---------- Interleavings ----------

  /** The manager, another writer's transaction if one is open, and whether a flow event has committed since the
      pipeline was last bound. */
  datatype World = World(m: Manager, other: Option<Txn>, flowCommitted: bool)

  datatype Event =
    | Process(dispatched: Dispatched)
    | OtherBegin
    | OtherWrite(side: Side)
    | OtherCommit
    | OtherAbort
    | Rebind(volume: Accumulator, leak: Detection)

  function Step(w: World, e: Event): World
    requires RepoOk(w.m.repo)
  {
    var repo := w.m.repo;
    match e
    case Process(d) =>
      var (n, outcome) := ProcessEvent(w.m, d);
      w.(m := n, flowCommitted := w.flowCommitted || (outcome.committed && d.work.FlowReady?))
    case OtherBegin =>
      if w.other.Some? then w
      else
        var (t, r, ok) := Begin(FRESH_TXN, repo);
        if ok then w.(m := w.m.(repo := r), other := Some(t)) else w
    case OtherWrite(side) =>
      if w.other.None? then w
      else
        var (t, r, _) := Write(w.other.value, repo, SIDE_FIELDS, WithSide(Read(w.other.value, repo), side));
        w.(m := w.m.(repo := r), other := Some(t))
    case OtherCommit =>
      if w.other.None? then w else w.(m := w.m.(repo := Commit(w.other.value, repo).1), other := None)
    case OtherAbort =>
      if w.other.None? then w else w.(m := w.m.(repo := Abort(w.other.value, repo).1), other := None)
    case Rebind(volume, leak) =>
      w.(m := w.m.(volume := volume, leak := leak, bound := true), flowCommitted := false)
  }

  predicate Inv(w: World) {
    && RepoOk(w.m.repo) && (w.m.repo.writerActive <==> w.other.Some?)
    && (w.other.Some? ==> InProgress(w.other.value, w.m.repo)
                          && SameChain(Read(w.other.value, w.m.repo), Visible(w.m.repo)))
    && (w.flowCommitted ==> Coherent(Visible(w.m.repo), w.m.volume))
  }

  lemma ProcessKeeps(w: World, d: Dispatched)
    requires Inv(w)
    ensures Inv(Step(w, Process(d)))
  {
    if w.m.repo.writerActive {
      assert ProcessEvent(w.m, d) == (w.m, NOTHING_DONE);
    } else {
      ProcessCases(w.m, d);
      ComputedKeepsCoherence(w.m, d, Visible(w.m.repo));
      hide ProcessEvent, Computed, Visible, InProgress, Read, RepoOk;
    }
  }

  lemma ComputedKeepsCoherence(m: Manager, d: Dispatched, base: Snapshot)
    ensures match Computed(m, d, base)
      case Some((after, Some(c), _)) => Coherent(after, c.volume)
      case Some((after, None, _)) => SameChain(after, base) && !d.work.FlowReady?
      case None => true
  {
    if d.work.FlowReady? && d.work.raw.Some? && d.work.flow.Some? {
      var s := if d.side.Some? then WithSide(base, d.side.value) else base;
      ChainIsCoherent(m.volume, m.leak, d.work.raw.value, d.work.flow.value, s, base.version);
    }
    hide FlowChain;
  }

  lemma OtherKeeps(w: World, e: Event)
    requires Inv(w) && !e.Process?
    ensures Inv(Step(w, e))
  {
    match e
    case OtherBegin =>
      if w.other.None? {
        BeginOwns(FRESH_TXN, w.m.repo);
      }
      hide Begin;
    case OtherWrite(side) =>
      if w.other.Some? {
        WriteIsPrivate(w.other.value, w.m.repo, SIDE_FIELDS, WithSide(Read(w.other.value, w.m.repo), side));
      }
      hide Write, Read;
    case OtherCommit =>
      if w.other.Some? {
        CommitPublishes(w.other.value, w.m.repo);
      }
      hide Commit, Read;
    case OtherAbort =>
      if w.other.Some? {
        AbortForgets(w.other.value, w.m.repo);
      }
      hide Abort, Read;
    case Rebind(_, _) =>
  }

  function Run(w: World, events: seq<Event>): World
    requires Inv(w)
    decreases |events|
  {
    if events == [] then w
    else
      StepKeeps(w, events[0]);
      Run(Step(w, events[0]), events[1..])
  }

  lemma StepKeeps(w: World, e: Event)
    requires Inv(w)
    ensures Inv(Step(w, e))
  {
    if e.Process? {
      ProcessKeeps(w, e.dispatched);
    } else {
      OtherKeeps(w, e);
    }
  }

  /** In every run, under any interleaving with other writers: once a flow event has committed, every snapshot that
      readers see is coherent with itself and with the live accumulator. */
  lemma {:induction false} SnapshotsAreCoherent(w: World, events: seq<Event>)
    requires Inv(w)
    ensures Inv(Run(w, events))
    ensures Run(w, events).flowCommitted ==> Coherent(Visible(Run(w, events).m.repo), Run(w, events).m.volume)
    decreases |events|
  {
    hide Step;
    if events != [] {
      StepKeeps(w, events[0]);
      SnapshotsAreCoherent(Step(w, events[0]), events[1..]);
    }
  }
}
