/** Who owns the MAX35103's SPI bus (max35103.c): requests with tokens, asynchronous transfers, lock and unlock hooks.
    What the driver decides after a frame is left open: it may settle, fail or ask for another frame. */
module Max35103Bus {
  import opened Bits
  import opened StorageRecord

  /** A lock hook that succeeded, and an unlock hook. */
  datatype Hook = Locked | Unlocked

  /** The driver's bus fields; the state of its event machine, as a number; and, for the statements only, the hooks
      called and the number of requests staged. */
  datatype Spi = Spi(
    hasLock: bool, busLocked: bool, pending: bool, asyncActive: bool, token: uint32, nextToken: uint32, machine: nat,
    hooks: seq<Hook>, staged: nat)

  /** What a platform hook returns. */
  datatype Answer = Done | Busy | Failed

  datatype SpiStatus = SpiOk | SpiNotReady | SpiBusy | SpiFailed

  function StatusOf(a: Answer): SpiStatus {
    match a
    case Done => SpiOk
    case Busy => SpiBusy
    case Failed => SpiFailed
  }

  function InitialSpi(hasLock: bool): Spi {
    Spi(hasLock, false, false, false, 0, 0, 0, [], 0)
  }

  // ---------- Ownership ----------

  /** max_bus_acquire, with the lock hook's answer. */
  function Acquire(s: Spi, lock: Answer): (Spi, Answer) {
    if s.busLocked then (s, Busy)
    else if s.hasLock && lock != Done then (s, lock)
    else (s.(busLocked := true, hooks := if s.hasLock then s.hooks + [Locked] else s.hooks), Done)
  }

  /** max_bus_release. */
  function Release(s: Spi): Spi {
    if !s.busLocked then s
    else s.(busLocked := false, hooks := if s.hasLock then s.hooks + [Unlocked] else s.hooks)
  }

  function Cleared(s: Spi): Spi {
    s.(pending := false, token := 0)
  }

  /** max_cancel_pending_spi. */
  function CancelPending(s: Spi): Spi {
    Cleared(if s.asyncActive then Release(s.(asyncActive := false)) else s)
  }

  // ---------- Requests ----------

  /** Tokens skip zero. */
  function TokenAfter(token: uint32): (next: uint32)
    ensures next != 0
  {
    var next := (token + 1) % 0x1_0000_0000;
    if next == 0 then 1 else next
  }

  /** max_schedule_register_read and max_schedule_block_read. */
  function Stage(s: Spi): (Spi, bool) {
    if s.pending then (s, false)
    else
      var token := TokenAfter(s.nextToken);
      (s.(pending := true, token := token, nextToken := token, staged := s.staged + 1), true)
  }

  /** What the event machine does next: settle in a state, fail into one, or ask for another frame in one. */
  datatype Decision = Settle(machine: nat) | Fail(machine: nat) | Ask(machine: nat)

  function Decided(s: Spi, d: Decision): Spi {
    var t := s.(machine := d.machine);
    match d
    case Settle(_) => t
    case Fail(_) => CancelPending(t)
    case Ask(_) => var (u, staged) := Stage(t); if staged then u else CancelPending(u)
  }

  /** MAX35103_OnSpiDone. A failed frame puts the machine into its error state. */
  function OnSpiDone(s: Spi, token: uint32, ok: bool, error: nat, d: Decision): Spi {
    if !s.pending || token == 0 || token != s.token then s
    else
      var t := Cleared(if s.asyncActive then Release(s.(asyncActive := false)) else s);
      if !ok then CancelPending(t.(machine := error)) else Decided(t, d)
  }

  /** A completion interrupt inside the start hook. */
  datatype Inside = Inside(token: uint32, ok: bool, error: nat, decision: Decision)

  /** MAX35103_StartPendingSpiAsync. */
  function StartAsync(s: Spi, lock: Answer, inside: Option<Inside>, start: Answer): (Spi, SpiStatus) {
    if !s.pending then (s, SpiNotReady)
    else if s.asyncActive then (s, SpiBusy)
    else
      var (t, acquired) := Acquire(s, lock);
      if acquired != Done then (t, StatusOf(acquired))
      else
        var active := t.(asyncActive := true);
        var after := match inside
          case Some(i) => OnSpiDone(active, i.token, i.ok, i.error, i.decision)
          case None => active;
        (if start == Done then after else Release(after.(asyncActive := false)), StatusOf(start))
  }

  /** max_spi_xfer: a blocking frame holds the bus only while it lasts. */
  function Blocking(s: Spi, lock: Answer, transfer: Answer): (Spi, Answer) {
    var (t, acquired) := Acquire(s, lock);
    if acquired == Done then (Release(t), transfer) else (t, acquired)
  }

  /** MAX35103_ExecuteSpi: a busy bus leaves the request pending. */
  function ExecuteSpi(s: Spi, lock: Answer, transfer: Answer, error: nat, d: Decision): (Spi, SpiStatus) {
    if !s.pending then (s, SpiNotReady)
    else
      var (t, answer) := Blocking(s, lock, transfer);
      (if answer == Busy then t else OnSpiDone(t, s.token, answer == Done, error, d), StatusOf(answer))
  }

  // ---------- Runs ----------

  datatype Call =
    | StageCall(decision: Decision)
    | StartCall(lock: Answer, inside: Option<Inside>, start: Answer)
    | DoneCall(token: uint32, ok: bool, error: nat, decision: Decision)
    | ExecuteCall(lock: Answer, transfer: Answer, error: nat, decision: Decision)
    | BlockingCall(lock: Answer, transfer: Answer)
    | CancelCall(machine: nat)

  function Step(s: Spi, c: Call): Spi {
    match c
    case StageCall(d) => Decided(s, d)
    case StartCall(lock, inside, start) => StartAsync(s, lock, inside, start).0
    case DoneCall(token, ok, error, d) => OnSpiDone(s, token, ok, error, d)
    case ExecuteCall(lock, transfer, error, d) => ExecuteSpi(s, lock, transfer, error, d).0
    case BlockingCall(lock, transfer) => Blocking(s, lock, transfer).0
    case CancelCall(machine) => CancelPending(s.(machine := machine))
  }

  function Run(s: Spi, calls: seq<Call>): Spi
    decreases |calls|
  {
    if calls == [] then s else Run(Step(s, calls[0]), calls[1..])
  }

  /** The hooks called are Locked, Unlocked, Locked, ... and the last one says whether the bus is locked. */
  predicate Alternating(hooks: seq<Hook>, held: bool) {
    && (forall i :: 0 <= i < |hooks| ==> hooks[i] == if i % 2 == 0 then Locked else Unlocked)
    && (held <==> |hooks| % 2 == 1)
  }

  /** The token that the n-th request gets. */
  function NthToken(n: nat): uint32 {
    if n == 0 then 0 else (n - 1) % 0xFFFF_FFFF + 1
  }

  /** What holds in the middle of a call too. */
  predicate Core(s: Spi) {
    && (s.pending <==> s.token != 0) && (s.asyncActive ==> s.pending && s.busLocked)
    && (if s.hasLock then Alternating(s.hooks, s.busLocked) else s.hooks == [])
    && s.nextToken == NthToken(s.staged) && (s.pending ==> s.token == s.nextToken)
  }

  /** Between public calls the bus is held exactly when a transfer is active. */
  predicate Inv(s: Spi) {
    Core(s) && (s.busLocked <==> s.asyncActive)
  }

  lemma TokenIsNth(n: nat)
    ensures TokenAfter(NthToken(n)) == NthToken(n + 1)
  {
  }

  lemma AcquireKeeps(s: Spi, lock: Answer)
    requires Core(s)
    ensures var (t, acquired) := Acquire(s, lock);
      Core(t) && (acquired == Done ==> t == s.(busLocked := true, hooks := t.hooks) && !s.busLocked)
      && (acquired != Done ==> t == s)
  {
  }

  lemma ReleaseKeeps(s: Spi)
    requires Core(s) && !s.asyncActive
    ensures Core(Release(s)) && !Release(s).busLocked
  {
  }

  lemma CancelKeeps(s: Spi)
    requires Inv(s)
    ensures Inv(CancelPending(s)) && !CancelPending(s).pending && !CancelPending(s).asyncActive
  {
    if s.asyncActive {
      ReleaseKeeps(s.(asyncActive := false));
    }
    hide Release, Alternating, NthToken;
  }

  lemma DecidedKeeps(s: Spi, d: Decision)
    requires Inv(s)
    ensures Inv(Decided(s, d))
  {
    CancelKeeps(s.(machine := d.machine));
    TokenIsNth(s.staged);
    hide CancelPending, Alternating, NthToken, TokenAfter;
  }

  lemma DoneKeeps(s: Spi, token: uint32, ok: bool, error: nat, d: Decision)
    requires Inv(s)
    ensures Inv(OnSpiDone(s, token, ok, error, d))
  {
    if s.asyncActive {
      ReleaseKeeps(s.(asyncActive := false));
    }
    var t := Cleared(if s.asyncActive then Release(s.(asyncActive := false)) else s);
    hide Release, Alternating, NthToken, CancelPending, Decided;
    if s.pending {
      assert Inv(t);
      CancelKeeps(t.(machine := error));
      DecidedKeeps(t, d);
    }
  }

  lemma StartKeeps(s: Spi, lock: Answer, inside: Option<Inside>, start: Answer)
    requires Inv(s)
    ensures Inv(StartAsync(s, lock, inside, start).0)
  {
    AcquireKeeps(s, lock);
    var (t, acquired) := Acquire(s, lock);
    var active := t.(asyncActive := true);
    hide Acquire, Alternating, NthToken, OnSpiDone;
    if s.pending && !s.asyncActive && acquired == Done {
      var after := active;
      if inside.Some? {
        var i := inside.value;
        DoneKeeps(active, i.token, i.ok, i.error, i.decision);
        after := OnSpiDone(active, i.token, i.ok, i.error, i.decision);
      }
      ReleaseKeeps(after.(asyncActive := false));
    }
    hide Release;
  }

  lemma BlockingKeeps(s: Spi, lock: Answer, transfer: Answer)
    requires Inv(s)
    ensures var t := Blocking(s, lock, transfer).0;
      Inv(t) && t.pending == s.pending && t.token == s.token && t.asyncActive == s.asyncActive
  {
    AcquireKeeps(s, lock);
    var (t, acquired) := Acquire(s, lock);
    hide Acquire;
    if acquired == Done {
      ReleaseKeeps(t);
    }
    hide Alternating, NthToken;
  }

  lemma StepKeeps(s: Spi, c: Call)
    requires Inv(s)
    ensures Inv(Step(s, c))
  {
    hide Inv, Decided, StartAsync, OnSpiDone, Blocking, CancelPending;
    match c
    case StageCall(d) => DecidedKeeps(s, d);
    case StartCall(lock, inside, start) => StartKeeps(s, lock, inside, start);
    case DoneCall(token, ok, error, d) => DoneKeeps(s, token, ok, error, d);
    case ExecuteCall(lock, transfer, error, d) =>
      BlockingKeeps(s, lock, transfer);
      var (t, answer) := Blocking(s, lock, transfer);
      DoneKeeps(t, s.token, answer == Done, error, d);
    case BlockingCall(lock, transfer) => BlockingKeeps(s, lock, transfer);
    case CancelCall(machine) => MachineFree(s, machine); CancelKeeps(s.(machine := machine));
  }

  lemma MachineFree(s: Spi, machine: nat)
    requires Inv(s)
    ensures Inv(s.(machine := machine))
  {
  }

  lemma {:induction false} RunKeeps(s: Spi, calls: seq<Call>)
    requires Inv(s)
    ensures Inv(Run(s, calls))
    decreases |calls|
  {
    hide Inv, Step;
    if calls != [] {
      StepKeeps(s, calls[0]);
      RunKeeps(Step(s, calls[0]), calls[1..]);
    }
  }

  /** In every run from the start: bus held exactly when a transfer is active, an active transfer is a pending request with
      a nonzero token, and the hooks alternate. */
  lemma OwnershipHolds(hasLock: bool, calls: seq<Call>)
    ensures Inv(Run(InitialSpi(hasLock), calls))
  {
    RunKeeps(InitialSpi(hasLock), calls);
    hide Run, Inv;
  }

  // ---------- Late completions ----------

  /** Two requests have the same token exactly when a multiple of 2^32 - 1 requests lies between them. */
  lemma TokensRepeat(m: nat, n: nat)
    requires 0 < m <= n
    ensures NthToken(m) == NthToken(n) <==> (n - m) % 0xFFFF_FFFF == 0
  {
    var (p, q) := ((m - 1) % 0xFFFF_FFFF, (n - 1) % 0xFFFF_FFFF);
    var turns := (n - 1) / 0xFFFF_FFFF - (m - 1) / 0xFFFF_FFFF;
    assert n - m == 0xFFFF_FFFF * turns + (q - p);
  }

  lemma {:induction false} StagedGrows(s: Spi, calls: seq<Call>)
    ensures s.staged <= Run(s, calls).staged
    decreases |calls|
  {
    if calls != [] {
      StepGrows(s, calls[0]);
      hide Step;
      StagedGrows(Step(s, calls[0]), calls[1..]);
    }
  }

  lemma StepGrows(s: Spi, c: Call)
    ensures s.staged <= Step(s, c).staged
  {
    hide TokenAfter;
  }

  /** The completion of a request that is no longer the pending one, whether it was cancelled or replaced, changes
      nothing at all: it does not release the bus and it does not advance a later request; unless exactly a multiple of
      2^32 - 1 requests were staged in between. */
  lemma LateCompletionIsIgnored(s: Spi, calls: seq<Call>, ok: bool, error: nat, d: Decision)
    requires Inv(s) && s.pending
    requires var t := Run(s, calls);
      !t.pending || (t.staged > s.staged && (t.staged - s.staged) % 0xFFFF_FFFF != 0)
    ensures var t := Run(s, calls); OnSpiDone(t, s.token, ok, error, d) == t
  {
    RunKeeps(s, calls);
    var t := Run(s, calls);
    if t.pending {
      assert s.staged > 0;
      TokensRepeat(s.staged, t.staged);
    }
    hide Run;
  }
}
