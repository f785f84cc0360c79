/** repo_transaction.c and the dispatch of measurement_manager.c in their own form: two buffers written and flipped in
    place. */
module RepoObject {
  import opened Bits
  import opened StorageRecord
  import opened VolumeAccumulator
  import opened LeakDetection
  import Spec = RepoTransaction
  import opened RepoTransaction
  import Manage = MeasurementManager

  class DataRepository {
    const buffers: array<Snapshot>
    var activeIndex: nat
    var version: nat
    var writeIndex: nat
    var writerActive: bool

    ghost predicate Valid()
      reads this
    {
      buffers.Length == 2 && activeIndex < 2 && writeIndex < 2
    }

    ghost function View(): (r: Repository)
      reads this, buffers
      requires Valid()
      ensures RepoOk(r)
    {
      Repository(buffers[..], activeIndex, version, writeIndex, writerActive)
    }

    constructor (blank: Snapshot)
      ensures Valid() && fresh(buffers) && View() == Repository([blank, blank], 0, 0, 0, false)
    {
      buffers := new Snapshot[2](_ => blank);
      activeIndex, version, writeIndex, writerActive := 0, 0, 0, false;
    }
  }

  class RepoWriteTxn {
    var state: TxnState
    var base: nat
    var written: set<Field>
    var inactiveIndex: nat

    ghost function View(): Txn
      reads this
    {
      Txn(state, base, written, inactiveIndex)
    }

    /** txn_init. */
    constructor ()
      ensures View() == FRESH_TXN
    {
      state, base, written, inactiveIndex := TxnInit, 0, {}, 0;
    }

    /** txn_begin. */
    method Begin(repo: DataRepository) returns (ok: bool)
      requires repo.Valid()
      modifies this, repo, repo.buffers
      ensures repo.Valid() && (View(), repo.View(), ok) == Spec.Begin(old(View()), old(repo.View()))
    {
      if state == TxnActive || repo.writerActive {
        return false;
      }
      inactiveIndex := 1 - repo.activeIndex;
      repo.buffers[inactiveIndex] := repo.buffers[repo.activeIndex];
      base, written, state := repo.version, {}, TxnActive;
      repo.writeIndex := inactiveIndex;
      repo.writerActive := true;
      return true;
    }

    /** txn_commit. */
    method Commit(repo: DataRepository) returns (ok: bool)
      requires repo.Valid()
      modifies this, repo, repo.buffers
      ensures repo.Valid() && (View(), repo.View(), ok) == Spec.Commit(old(View()), old(repo.View()))
    {
      if state != TxnActive {
        state := TxnError;
        return false;
      }
      if !repo.writerActive || repo.writeIndex != inactiveIndex || repo.version != base {
        if repo.writerActive && repo.writeIndex == inactiveIndex {
          repo.writerActive := false;
        }
        state := TxnError;
        return false;
      }
      repo.version := repo.version + 1;
      repo.buffers[inactiveIndex] := repo.buffers[inactiveIndex].(version := repo.version);
      repo.activeIndex := inactiveIndex;
      repo.writerActive := false;
      state := TxnCommitted;
      return true;
    }

    /** txn_abort. */
    method Abort(repo: DataRepository)
      requires repo.Valid()
      modifies this, repo
      ensures repo.Valid() && (View(), repo.View()) == Spec.Abort(old(View()), old(repo.View()))
    {
      if state != TxnActive {
        return;
      }
      if repo.writerActive && repo.writeIndex == inactiveIndex {
        repo.writerActive := false;
      }
      written := {};
      state := TxnAborted;
    }

    /** write_field, for some fields: they are copied into the candidate snapshot. */
    method Write(repo: DataRepository, fields: set<Field>, after: Snapshot) returns (ok: bool)
      requires repo.Valid()
      modifies this, repo.buffers
      ensures repo.Valid() && (View(), repo.View(), ok) == Spec.Write(old(View()), old(repo.View()), fields, after)
    {
      if state != TxnActive {
        state := TxnError;
        return false;
      }
      if !repo.writerActive || repo.writeIndex != inactiveIndex {
        return false;
      }
      repo.buffers[inactiveIndex] := Patched(repo.buffers[inactiveIndex], fields, after);
      written := written + fields;
      return true;
    }

    /** txn_read_snapshot. */
    method ReadSnapshot(repo: DataRepository) returns (s: Snapshot)
      requires repo.Valid()
      ensures s == Read(View(), repo.View())
    {
      if state == TxnActive && repo.writerActive && repo.writeIndex == inactiveIndex {
        return repo.buffers[repo.writeIndex];
      }
      return repo.buffers[repo.activeIndex];
    }
  }

  class MeasurementManager {
    const repo: DataRepository
    var volumeAccumulator: Accumulator
    var leakDetection: Detection
    var bound: bool

    constructor (r: DataRepository, volume: Accumulator, leak: Detection)
      ensures repo == r && volumeAccumulator == volume && leakDetection == leak && !bound
    {
      repo, volumeAccumulator, leakDetection, bound := r, volume, leak, false;
    }

    ghost predicate Valid()
      reads this, repo
    {
      repo.Valid()
    }

    ghost function View(): (m: Manage.Manager)
      reads this, repo, repo.buffers
      requires Valid()
      ensures RepoOk(m.repo)
    {
      Manage.Manager(repo.View(), volumeAccumulator, leakDetection, bound)
    }

    /** The candidate-copy pattern: flow, volume and leak are applied to copies and written one after the other. */
    method FlowChain(txn: RepoWriteTxn, raw: Manage.Raw, flow: Flow, inputVersion: nat)
        returns (candidates: Option<Manage.Candidates>)
      requires Valid() && InProgress(txn.View(), repo.View())
      modifies txn, repo.buffers
      ensures Valid() && InProgress(txn.View(), repo.View()) && Visible(repo.View()) == old(Visible(repo.View()))
      ensures repo.View().version == old(repo.View().version)
      ensures candidates == Manage.FlowChain(volumeAccumulator, leakDetection, raw, flow, old(Read(txn.View(), repo.View())), inputVersion)
      ensures candidates.Some? ==>
        && Read(txn.View(), repo.View()) == candidates.value.snapshot
        && txn.written == old(txn.written) + {FlowField, VolumeField, LeakField}
    {
      hide VolumeAccumulator.Consume, LeakDetection.Evaluate, Manage.LeakResultOf, Manage.LeakInput;
      var s := txn.ReadSnapshot(repo);
      var withFlow := s.(flow := flow);
      WriteIsPrivate(txn.View(), repo.View(), {FlowField}, withFlow);
      var ok := txn.Write(repo, {FlowField}, withFlow);
      var (nextVolume, status) := VolumeAccumulator.Consume(volumeAccumulator, flow);
      if !Manage.VolumeTaken(status) {
        return None;
      }
      var withVolume := withFlow.(volume := nextVolume.state);
      WriteIsPrivate(txn.View(), repo.View(), {VolumeField}, withVolume);
      ok := txn.Write(repo, {VolumeField}, withVolume);
      var x := Manage.LeakInput(raw, withFlow);
      var (nextLeak, _) := LeakDetection.Evaluate(leakDetection, x);
      var withLeak := withVolume.(leak := Manage.LeakResultOf(nextLeak, x, nextVolume.state.stateVersion, inputVersion));
      WriteIsPrivate(txn.View(), repo.View(), {LeakField}, withLeak);
      ok := txn.Write(repo, {LeakField}, withLeak);
      return Some(Manage.Candidates(nextVolume, nextLeak, withLeak));
    }

    /** measurement_manager_process_event. It does what the specification says up to the buffer that nobody sees. */
    method ProcessEvent(d: Manage.Dispatched) returns (outcome: Manage.Outcome)
      requires Valid() && !repo.writerActive
      modifies this, repo, repo.buffers
      ensures Valid() && !repo.writerActive && bound == old(bound)
      ensures var (n, expected) := Manage.ProcessEvent(old(View()), d);
        && outcome == expected && volumeAccumulator == n.volume && leakDetection == n.leak
        && RepoOk(n.repo) && Visible(repo.View()) == Visible(n.repo) && repo.version == n.repo.version
    {
      Manage.ProcessCases(View(), d);
      hide Manage.ProcessEvent, Manage.Computed;
      var txn := new RepoWriteTxn();
      BeginOwns(FRESH_TXN, repo.View());
      var ok := txn.Begin(repo);
      hide Spec.Begin, Read, Visible, InProgress;
      var failed, candidates := Compute(txn, d);
      outcome := Finish(txn, d, failed, candidates);
    }

    /** Everything between begin and the decision to commit. */
    method Compute(txn: RepoWriteTxn, d: Manage.Dispatched) returns (failed: bool, candidates: Option<Manage.Candidates>)
      requires Valid() && InProgress(txn.View(), repo.View())
      requires txn.written == {} && Read(txn.View(), repo.View()) == Visible(repo.View())
      modifies txn, repo.buffers
      ensures Valid() && InProgress(txn.View(), repo.View()) && Visible(repo.View()) == old(Visible(repo.View()))
      ensures repo.View().version == old(repo.View().version)
      ensures var computed := Manage.Computed(old(View()), d, old(Visible(repo.View())));
        && (failed <==> computed.None?)
        && (computed.Some? ==>
              (Read(txn.View(), repo.View()), candidates, txn.written) == computed.value)
    {
      hide Manage.FlowChain, Manage.WithSide;
      candidates := None;
      if d.serviceFails {
        return true, None;
      }
      var inputVersion := repo.buffers[repo.activeIndex].version;
      var ok;
      if d.side.Some? {
        var s := Manage.WithSide(repo.buffers[repo.activeIndex], d.side.value);
        Manage.SidePatches(repo.buffers[repo.activeIndex], d.side.value);
        WriteIsPrivate(txn.View(), repo.View(), Manage.SIDE_FIELDS, s);
        ok := txn.Write(repo, Manage.SIDE_FIELDS, s);
      }
      if d.work.PressureReady? {
        if d.work.pressure.None? {
          return true, None;
        }
        var s := txn.ReadSnapshot(repo);
        var t := s.(pressure := d.work.pressure.value.0, pressureUsable := d.work.pressure.value.1);
        WriteIsPrivate(txn.View(), repo.View(), {PressureField}, t);
        ok := txn.Write(repo, {PressureField}, t);
        assert txn.written == (if d.side.Some? then Manage.SIDE_FIELDS else {}) + {PressureField};
      } else if d.work.FlowReady? {
        if !bound || d.work.raw.None? || d.work.flow.None? {
          return true, None;
        }
        ghost var fields := if d.side.Some? then Manage.SIDE_FIELDS else {};
        assert txn.written == fields;
        candidates := FlowChain(txn, d.work.raw.value, d.work.flow.value, inputVersion);
        return candidates.None?, candidates;
      }
      assert d.work.OtherWork? ==> txn.written == if d.side.Some? then Manage.SIDE_FIELDS else {};
      return false, candidates;
    }

    /** Abort, or commit and then move the candidates into place. */
    method Finish(txn: RepoWriteTxn, d: Manage.Dispatched, failed: bool, candidates: Option<Manage.Candidates>)
        returns (outcome: Manage.Outcome)
      requires Valid() && InProgress(txn.View(), repo.View())
      modifies this, repo, repo.buffers, txn
      ensures Valid() && !repo.writerActive && bound == old(bound)
      ensures outcome.committed <==> !failed && old(txn.written) != {}
      ensures outcome.committed ==>
        && Visible(repo.View()) == old(Read(txn.View(), repo.View())).(version := old(repo.version) + 1)
        && repo.version == old(repo.version) + 1
        && volumeAccumulator == (if candidates.Some? then candidates.value.volume else old(volumeAccumulator))
        && leakDetection == (if candidates.Some? then candidates.value.leak else old(leakDetection))
        && outcome == Manage.Outcome(d.handled, true,
             (if candidates.Some? then [Manage.FlowResultReady, Manage.VolumeUpdated, Manage.LeakResultUpdated] else [])
             + (if d.work.PressureReady? then [Manage.PressureResultReady] else []))
      ensures !outcome.committed ==>
        && Visible(repo.View()) == old(Visible(repo.View())) && repo.version == old(repo.version)
        && volumeAccumulator == old(volumeAccumulator) && leakDetection == old(leakDetection)
        && outcome == if failed then Manage.NOTHING_DONE else Manage.Outcome(d.handled, false, [])
    {
      AbortForgets(txn.View(), repo.View());
      CommitPublishes(txn.View(), repo.View());
      hide Spec.Abort, Spec.Commit;
      if failed {
        txn.Abort(repo);
        return Manage.NOTHING_DONE;
      }
      if txn.written == {} {
        txn.Abort(repo);
        return Manage.Outcome(d.handled, false, []);
      }
      var ok := txn.Commit(repo);
      var posted: seq<Manage.Posted> := [];
      if candidates.Some? {
        volumeAccumulator := candidates.value.volume;
        leakDetection := candidates.value.leak;
        posted := [Manage.FlowResultReady, Manage.VolumeUpdated, Manage.LeakResultUpdated];
      }
      if d.work.PressureReady? {
        posted := posted + [Manage.PressureResultReady];
      }
      return Manage.Outcome(d.handled, true, posted);
    }
  }
}
