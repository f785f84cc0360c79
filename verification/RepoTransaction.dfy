/** The double-buffered repository and its write transactions, repo_transaction.c. The runtime is cooperative, so there
    is one thread. */
module RepoTransaction {
  import opened Bits
  import opened StorageRecord
  import opened VolumeAccumulator
  import opened LeakDetection

  /** What a published leak result says and what it was computed from. */
  datatype LeakResult = LeakResult(
    version: nat, changeSequence: nat, state: LeakState, status: EvalStatus, reason: Reason, severity: Severity,
    enteredUs: uint64, latestUs: uint64, snapshotVersion: nat, flowVersion: uint64, volumeVersion: nat, generation: uint32)

  /** Fields the flow chain does not compute are numbers here. */
  datatype Snapshot = Snapshot(
    version: nat, flow: Flow, volume: VolumeState, leak: LeakResult,
    pressure: int64, pressureUsable: bool, temperature: int, mode: int, power: int)

  datatype Repository = Repository(
    buffers: seq<Snapshot>, activeIndex: nat, version: nat, writeIndex: nat, writerActive: bool)

  datatype TxnState = TxnInit | TxnActive | TxnCommitted | TxnAborted | TxnError

  datatype Field = FlowField | PressureField | TemperatureField | VolumeField | LeakField | ModeField | PowerField

  datatype Txn = Txn(state: TxnState, base: nat, written: set<Field>, inactiveIndex: nat)

  const FRESH_TXN := Txn(TxnInit, 0, {}, 0)

  predicate RepoOk(r: Repository) {
    |r.buffers| == 2 && r.activeIndex < 2 && r.writeIndex < 2
  }

  /** What readers see. */
  function Visible(r: Repository): Snapshot
    requires RepoOk(r)
  {
    r.buffers[r.activeIndex]
  }

  /** txn_begin. */
  function Begin(t: Txn, r: Repository): (Txn, Repository, bool)
    requires RepoOk(r)
  {
    if t.state == TxnActive || r.writerActive then (t, r, false)
    else
      var inactive := 1 - r.activeIndex;
      (Txn(TxnActive, r.version, {}, inactive),
       r.(buffers := r.buffers[inactive := r.buffers[r.activeIndex]], writeIndex := inactive, writerActive := true), true)
  }

  /** The transaction is the repository's writer. */
  predicate Owns(t: Txn, r: Repository) {
    t.state == TxnActive && r.writerActive && r.writeIndex == t.inactiveIndex
  }

  /** s with the named fields taken from after, and no others. */
  function Patched(s: Snapshot, fields: set<Field>, after: Snapshot): Snapshot {
    Snapshot(s.version,
             if FlowField in fields then after.flow else s.flow,
             if VolumeField in fields then after.volume else s.volume,
             if LeakField in fields then after.leak else s.leak,
             if PressureField in fields then after.pressure else s.pressure,
             if PressureField in fields then after.pressureUsable else s.pressureUsable,
             if TemperatureField in fields then after.temperature else s.temperature,
             if ModeField in fields then after.mode else s.mode,
             if PowerField in fields then after.power else s.power)
  }

  /** write_field, once for each of the fields. */
  function Write(t: Txn, r: Repository, fields: set<Field>, after: Snapshot): (Txn, Repository, bool)
    requires RepoOk(r)
  {
    if t.state != TxnActive then (t.(state := TxnError), r, false)
    else if !Owns(t, r) then (t, r, false)
    else
      (t.(written := t.written + fields),
       r.(buffers := r.buffers[r.writeIndex := Patched(r.buffers[r.writeIndex], fields, after)]), true)
  }

  /** txn_read_snapshot. */
  function Read(t: Txn, r: Repository): Snapshot
    requires RepoOk(r)
  {
    if Owns(t, r) then r.buffers[r.writeIndex] else Visible(r)
  }

  /** txn_commit. */
  function Commit(t: Txn, r: Repository): (Txn, Repository, bool)
    requires RepoOk(r)
  {
    if t.state != TxnActive then (t.(state := TxnError), r, false)
    else if !Owns(t, r) || r.version != t.base then
      (t.(state := TxnError), if Owns(t, r) then r.(writerActive := false) else r, false)
    else
      var version := r.version + 1;
      (t.(state := TxnCommitted),
       r.(version := version, buffers := r.buffers[t.inactiveIndex := r.buffers[t.inactiveIndex].(version := version)],
          activeIndex := t.inactiveIndex, writerActive := false), true)
  }

  /** txn_abort. */
  function Abort(t: Txn, r: Repository): (Txn, Repository) {
    if t.state != TxnActive then (t, r)
    else (t.(written := {}, state := TxnAborted), if Owns(t, r) then r.(writerActive := false) else r)
  }

  // ---------- Transactions are atomic ----------

  /** A transaction in progress: it owns the buffer that readers do not see. */
  predicate InProgress(t: Txn, r: Repository) {
    RepoOk(r) && Owns(t, r) && t.inactiveIndex == 1 - r.activeIndex && t.base == r.version
  }

  lemma BeginOwns(t: Txn, r: Repository)
    requires RepoOk(r) && t.state != TxnActive && !r.writerActive
    ensures var (u, s, ok) := Begin(t, r);
      ok && InProgress(u, s) && Visible(s) == Visible(r) == Read(u, s) && u.written == {} && s.version == r.version
  {
  }

  /** A write changes the named fields, for its transaction and for nobody else. */
  lemma WriteIsPrivate(t: Txn, r: Repository, fields: set<Field>, after: Snapshot)
    requires InProgress(t, r)
    ensures var (u, s, ok) := Write(t, r, fields, after);
      ok && InProgress(u, s) && Visible(s) == Visible(r) && Read(u, s) == Patched(Read(t, r), fields, after)
      && u.written == t.written + fields
      && s.version == r.version
  {
  }

  /** Commit publishes all of it at once, under the next version. */
  lemma CommitPublishes(t: Txn, r: Repository)
    requires InProgress(t, r)
    ensures var (u, s, ok) := Commit(t, r);
      ok && RepoOk(s) && !s.writerActive && s.version == r.version + 1
      && Visible(s) == Read(t, r).(version := r.version + 1)
  {
  }

  /** Abort publishes none of it. */
  lemma AbortForgets(t: Txn, r: Repository)
    requires InProgress(t, r)
    ensures var (u, s) := Abort(t, r);
      RepoOk(s) && !s.writerActive && s.version == r.version && Visible(s) == Visible(r)
  {
  }
}
