/** When the volume moves, over runs of the dispatch and of other writers: the anchor that a candidate found after a gap
    is thrown away with the candidate. */
module MeasurementGaps {
  import opened Bits
  import opened StorageRecord
  import opened VolumeAccumulator
  import opened RepoTransaction
  import opened MeasurementManager

  /** The pipeline is bound once, before the run. */
  predicate KeepsBinding(events: seq<Event>) {
    forall k :: 0 <= k < |events| ==> !events[k].Rebind?
  }

  /** A flow event with everything it needs; what is left is the sample. */
  predicate Ready(w: World, e: Event) {
    && e.Process? && w.other.None? && w.m.bound && !e.dispatched.serviceFails
    && e.dispatched.work.FlowReady? && e.dispatched.work.raw.Some? && e.dispatched.work.flow.Some?
  }

  /** The event, in world w, brings a sample that accumulator a takes. */
  predicate Moves(a: Accumulator, w: World, e: Event) {
    Ready(w, e) && Takes(a, e.dispatched.work.flow.value)
  }

  /** What w and v have in common if the volume did not move: accumulator, leak state, and what readers see of the flow. */
  predicate SameVolume(w: World, v: World)
    requires Inv(w) && Inv(v)
  {
    v.m.volume == w.m.volume && v.m.leak == w.m.leak && SameChain(Visible(v.m.repo), Visible(w.m.repo))
  }

  lemma OtherLeavesVolume(w: World, e: Event)
    requires Inv(w) && !e.Process? && !e.Rebind?
    ensures Inv(Step(w, e)) && SameVolume(w, Step(w, e)) && Step(w, e).m.bound == w.m.bound
  {
    match e
    case OtherBegin =>
      if w.other.None? {
        BeginOwns(FRESH_TXN, w.m.repo);
      }
      hide Begin;
    case OtherWrite(side) =>
      if w.other.Some? {
        SidePatches(Read(w.other.value, w.m.repo), side);
        WriteIsPrivate(w.other.value, w.m.repo, SIDE_FIELDS, WithSide(Read(w.other.value, w.m.repo), side));
      }
      hide Write, Read;
    case OtherCommit =>
      if w.other.Some? {
        CommitPublishes(w.other.value, w.m.repo);
      }
      hide Commit, Read;
    case OtherAbort =>
      if w.other.Some? {
        AbortForgets(w.other.value, w.m.repo);
      }
      hide Abort, Read;
  }

  /** One event: the volume moves on by a version, or it stays, and everything computed with it. */
  lemma StepMoves(w: World, e: Event)
    requires Inv(w) && RemaindersOk(w.m.volume) && !e.Rebind?
    ensures var v := Step(w, e);
      && Inv(v) && RemaindersOk(v.m.volume) && v.m.bound == w.m.bound
      && v.m.volume.state.stateVersion >= w.m.volume.state.stateVersion
      && if Moves(w.m.volume, w, e) then v.m.volume.state.stateVersion == w.m.volume.state.stateVersion + 1
         else SameVolume(w, v)
  {
    StepKeeps(w, e);
    if !e.Process? {
      OtherLeavesVolume(w, e);
    } else {
      ProcessMoves(w, e.dispatched);
    }
    hide Step, Inv, Takes;
  }

  lemma ProcessMoves(w: World, d: Dispatched)
    requires Inv(w) && RemaindersOk(w.m.volume)
    ensures var v := Step(w, Process(d));
      && Inv(v) && RemaindersOk(v.m.volume) && v.m.bound == w.m.bound
      && if Moves(w.m.volume, w, Process(d)) then v.m.volume.state.stateVersion == w.m.volume.state.stateVersion + 1
         else SameVolume(w, v)
  {
    StepKeeps(w, Process(d));
    if w.m.repo.writerActive {
      assert ProcessEvent(w.m, d) == (w.m, NOTHING_DONE);
    } else {
      ProcessCases(w.m, d);
      if d.work.FlowReady? {
        FailedEventChangesNothing(w.m, d);
        if d.work.flow.Some? {
          TakenIff(w.m.volume, d.work.flow.value);
        }
      } else {
        ComputedKeepsCoherence(w.m, d, Visible(w.m.repo));
        NoCandidates(w.m, d, Visible(w.m.repo));
      }
    }
    hide ProcessEvent, Computed, Consume, Visible, RepoOk, Takes, RemaindersOk, InProgress, Coherent;
  }

  lemma NoCandidates(m: Manager, d: Dispatched, base: Snapshot)
    requires !d.work.FlowReady?
    ensures Computed(m, d, base).Some? ==> Computed(m, d, base).value.1.None?
  {
  }

  lemma RunPrefix(w: World, events: seq<Event>, k: nat)
    requires Inv(w) && events != [] && k < |events|
    ensures Inv(Step(w, events[0]))
    ensures MeasurementManager.Run(w, events[..k + 1]) == MeasurementManager.Run(Step(w, events[0]), events[1..][..k])
  {
    StepKeeps(w, events[0]);
    assert events[..k + 1][1..] == events[1..][..k];
    hide Step, Inv;
  }

  lemma {:induction false} VersionsGrow(w: World, events: seq<Event>)
    requires Inv(w) && RemaindersOk(w.m.volume) && KeepsBinding(events)
    ensures Inv(MeasurementManager.Run(w, events)) && MeasurementManager.Run(w, events).m.volume.state.stateVersion >= w.m.volume.state.stateVersion
    decreases |events|
  {
    if events != [] {
      StepMoves(w, events[0]);
      var u := Step(w, events[0]);
      hide Inv, Step, RemaindersOk, Moves, SameVolume;
      VersionsGrow(u, events[1..]);
    }
  }

  /** Event k of the run moves the volume, if nothing before it did. */
  predicate MovesAt(w: World, events: seq<Event>, k: nat)
    requires Inv(w) && k < |events|
  {
    Moves(w.m.volume, MeasurementManager.Run(w, events[..k]), events[k])
  }

  /** In every run of flow, pressure and other events, with other writers in between: the volume moves if and only if some
      event brings, while no other writer is at work, a sample that the accumulator of the beginning takes: a sample past
      the gates of its metadata and, if there is an anchor, within the gap after that anchor. Otherwise neither the leak
      state nor anything that readers see of flow, volume and leak moves. */
  lemma {:induction false} VolumeMovesIff(w: World, events: seq<Event>)
    requires Inv(w) && RemaindersOk(w.m.volume) && KeepsBinding(events)
    ensures var v := MeasurementManager.Run(w, events); Inv(v)
    ensures var v := MeasurementManager.Run(w, events);
      && (v.m.volume != w.m.volume <==> exists k :: 0 <= k < |events| && MovesAt(w, events, k))
      && (v.m.volume == w.m.volume ==> SameVolume(w, v))
    decreases |events|
  {
    if events == [] {
    } else {
      var u := Step(w, events[0]);
      StepMoves(w, events[0]);
      assert events[..0] == [] && MeasurementManager.Run(w, []) == w;
      assert MovesAt(w, events, 0) == Moves(w.m.volume, w, events[0]);
      if Moves(w.m.volume, w, events[0]) {
        VersionsGrow(u, events[1..]);
      } else {
        VolumeMovesIff(u, events[1..]);
        LaterMoves(w, events);
        assert MeasurementManager.Run(w, events) == MeasurementManager.Run(u, events[1..]);
      }
    }
    hide Step, Inv, RemaindersOk, Moves, MeasurementManager.Run, MovesAt;
  }

  /** If the first event leaves the accumulator alone, the volume is moved by a later one or by none. */
  lemma LaterMoves(w: World, events: seq<Event>)
    requires Inv(w) && events != [] && !Moves(w.m.volume, w, events[0])
    requires Inv(Step(w, events[0])) && Step(w, events[0]).m.volume == w.m.volume
    ensures (exists k :: 0 <= k < |events| && MovesAt(w, events, k))
       <==> (exists k :: 0 <= k < |events| - 1 && MovesAt(Step(w, events[0]), events[1..], k))
  {
    var u := Step(w, events[0]);
    assert events[..0] == [] && MeasurementManager.Run(w, []) == w;
    forall k | 0 <= k < |events| - 1
      ensures MovesAt(w, events, k + 1) == MovesAt(u, events[1..], k)
    {
      RunPrefix(w, events, k);
    }
    hide Step, Inv, MeasurementManager.Run, Moves;
    if k :| 0 <= k < |events| && MovesAt(w, events, k) {
      assert k > 0 && MovesAt(u, events[1..], k - 1);
    }
    if k :| 0 <= k < |events| - 1 && MovesAt(u, events[1..], k) {
      assert MovesAt(w, events, k + 1);
    }
  }

  /** The time of the flow sample an event brings. */
  predicate BringsFlow(e: Event) {
    e.Process? && e.dispatched.work.FlowReady? && e.dispatched.work.flow.Some?
  }

  function SampleTime(e: Event): uint64
    requires BringsFlow(e)
  {
    e.dispatched.work.flow.value.meta.sampleUs
  }

  /** One gap is enough: once a flow sample comes too late after the anchor, and sample times do not go back behind it, the
      volume never moves again, whatever else happens; and readers keep seeing the same flow, volume and leak result. */
  lemma OneGapIsForever(w: World, events: seq<Event>, g: nat)
    requires Inv(w) && RemaindersOk(w.m.volume) && KeepsBinding(events) && g < |events| && BringsFlow(events[g])
    requires BeyondGap(w.m.volume, events[g].dispatched.work.flow.value)
    requires forall k :: 0 <= k < g ==> !BringsFlow(events[k])
    requires forall k :: g <= k < |events| && BringsFlow(events[k]) ==> SampleTime(events[g]) <= SampleTime(events[k])
    ensures var v := MeasurementManager.Run(w, events); Inv(v) && SameVolume(w, v)
  {
    VolumeMovesIff(w, events);
    forall k | 0 <= k < |events|
      ensures !MovesAt(w, events, k)
    {
      if BringsFlow(events[k]) {
        assert BeyondGap(w.m.volume, events[k].dispatched.work.flow.value);
      }
    }
    hide Inv, MovesAt, MeasurementManager.Run, SameVolume, RemaindersOk;
  }
}
