/** The MAX35103 driver's shadow of the device's configuration registers (max35103.c). The device changes its registers
    only under host writes and reset; a write frame may fail, or be ignored although it seems to succeed. */
module Max35103Profile {
  import opened Bits
  import opened StorageRecord

  const FIRST_REGISTER: uint8 := 0x30
  const REGISTER_COUNT: nat := 20
  const TOF1: uint8 := 0x38
  const TOF2: uint8 := 0x39
  const TOF3: uint8 := 0x3A
  const TOF4: uint8 := 0x3B
  const TOF5: uint8 := 0x3C
  const TOF6: uint8 := 0x3D
  const TOF7: uint8 := 0x3E
  const EVENT_TIMING_1: uint8 := 0x3F
  const EVENT_TIMING_2: uint8 := 0x40
  const TOF_DELAY: uint8 := 0x41
  const CAL_CTRL: uint8 := 0x42
  const CONTROL_WRITE: uint8 := 0xFF
  const PL_MIN: nat := 1
  const PL_MAX: nat := 127
  const STOP_CODE_MAX: nat := 5
  const DELAY_MIN: nat := 0x12

  datatype Profile = Profile(
    eventMode: uint8, tof1: uint16, tof2: uint16, tof3: uint16, tof4: uint16, tof5: uint16, tof6: uint16, tof7: uint16,
    eventTiming1: uint16, eventTiming2: uint16, tofDelay: uint16, calCtrl: uint16)

  // ---------- A profile's own validity ----------

  function PulseLaunch(tof1: uint16): nat { tof1 / 0x100 }

  function StopCode(tof2: uint16): nat { tof2 / 0x2000 }

  function HitCount(p: Profile): nat {
    if StopCode(p.tof2) > STOP_CODE_MAX then 0 else StopCode(p.tof2) + 1
  }

  function AtLeast(wave: nat, earliest: nat): nat {
    if wave < earliest then earliest else wave
  }

  function EffectiveT2Wave(p: Profile): nat {
    AtLeast(p.tof2 / 0x80 % 0x40, 2)
  }

  /** Hits are selected by alternating bytes of TOF3, TOF4 and TOF5. */
  function EffectiveHitWave(p: Profile, hit: nat): nat
    requires hit < 6
  {
    var word := if hit < 2 then p.tof3 else if hit < 4 then p.tof4 else p.tof5;
    AtLeast(if hit % 2 == 0 then word / 0x100 % 0x40 else word % 0x40, hit + 3)
  }

  /** Bits 6, 7, 14 and 15 are reserved. */
  predicate WaveWordOk(word: uint16) {
    word / 0x40 % 4 == 0 && word / 0x4000 == 0
  }

  predicate RegistersOk(p: Profile) {
    && PL_MIN <= PulseLaunch(p.tof1) <= PL_MAX && p.tof1 / 0x10 % 0x10 != 0 && p.tof1 / 4 % 2 == 0
    && StopCode(p.tof2) <= STOP_CODE_MAX && p.tof2 / 8 % 2 == 0
    && WaveWordOk(p.tof3) && WaveWordOk(p.tof4) && WaveWordOk(p.tof5)
    && p.tof6 / 0x80 % 2 == 0 && p.tof7 / 0x80 % 2 == 0
    && DELAY_MIN <= p.tofDelay <= 512 * Pow2(p.tof2 % 8) && p.calCtrl / 0x1000 == 0
  }

  /** The waves that trigger T2 and the hits come one after the other. */
  predicate WavesAscend(p: Profile, hits: nat)
    requires hits <= 6
  {
    forall hit :: 0 <= hit < hits ==>
      EffectiveHitWave(p, hit) > if hit == 0 then EffectiveT2Wave(p) else EffectiveHitWave(p, hit - 1)
  }

  predicate IsValid(p: Profile) {
    7 <= p.eventMode <= 9 && RegistersOk(p) && WavesAscend(p, HitCount(p))
  }

  /** MAX35103_ValidateProfile. */
  method ValidateProfile(p: Profile) returns (valid: bool)
    ensures valid <==> IsValid(p)
  {
    if p.eventMode != 7 && p.eventMode != 8 && p.eventMode != 9 {
      return false;
    }
    if !RegistersOk(p) {
      return false;
    }
    var previousWave := EffectiveT2Wave(p);
    var hitCount := HitCount(p);
    var hit := 0;
    while hit < hitCount
      invariant 0 <= hit <= hitCount && WavesAscend(p, hit)
      invariant previousWave == if hit == 0 then EffectiveT2Wave(p) else EffectiveHitWave(p, hit - 1)
    {
      var wave := EffectiveHitWave(p, hit);
      if wave <= previousWave {
        return false;
      }
      previousWave := wave;
      hit := hit + 1;
    }
    return true;
  }

  // ---------- The device ----------

  /** How one frame turns out: whether the transport reports success, and whether a write took effect. */
  datatype Frame = Frame(ok: bool, took: bool)

  datatype Device = Device(registers: seq<uint16>, frames: seq<Frame>)

  predicate IsConfigurationWrite(opcode: uint8) {
    0x30 <= opcode <= 0x43
  }

  predicate IsWriteOpcode(opcode: uint8) {
    IsConfigurationWrite(opcode) || opcode == CONTROL_WRITE
  }

  function Next(d: Device): (Device, Frame) {
    if d.frames == [] then (d, Frame(false, false)) else (d.(frames := d.frames[1..]), d.frames[0])
  }

  /** max_spi_write_reg. */
  function SpiWrite(d: Device, opcode: uint8, value: uint16): (r: (Device, bool))
    requires |d.registers| == REGISTER_COUNT
    ensures |r.0.registers| == REGISTER_COUNT
  {
    var (e, frame) := Next(d);
    (if frame.took && IsConfigurationWrite(opcode) then e.(registers := e.registers[opcode - FIRST_REGISTER := value]) else e,
     frame.ok)
  }

  /** max_spi_read_reg of a register just written. Reads are honest; the control register may hold anything. */
  function SpiReadBack(d: Device, opcode: uint8, control: uint16): (r: (Device, bool, uint16))
    requires |d.registers| == REGISTER_COUNT
    ensures r.0 == d.(frames := r.0.frames)
  {
    var (e, frame) := Next(d);
    (e, frame.ok, if IsConfigurationWrite(opcode) then d.registers[opcode - FIRST_REGISTER] else control)
  }

  // ---------- The shadow ----------

  /** max_update_profile_register: None if no profile holds the register. */
  function Updated(p: Profile, opcode: uint8, value: uint16): Option<Profile> {
    if opcode == TOF1 then Some(p.(tof1 := value))
    else if opcode == TOF2 then Some(p.(tof2 := value))
    else if opcode == TOF3 then Some(p.(tof3 := value))
    else if opcode == TOF4 then Some(p.(tof4 := value))
    else if opcode == TOF5 then Some(p.(tof5 := value))
    else if opcode == TOF6 then Some(p.(tof6 := value))
    else if opcode == TOF7 then Some(p.(tof7 := value))
    else if opcode == EVENT_TIMING_1 then Some(p.(eventTiming1 := value))
    else if opcode == EVENT_TIMING_2 then Some(p.(eventTiming2 := value))
    else if opcode == TOF_DELAY then Some(p.(tofDelay := value))
    else if opcode == CAL_CTRL then Some(p.(calCtrl := value))
    else None
  }

  /** What MAX35103_Configure writes, in order. */
  function Entries(p: Profile): (entries: seq<(uint8, uint16)>)
    ensures |entries| == 11
  {
    [(TOF1, p.tof1), (TOF2, p.tof2), (TOF3, p.tof3), (TOF4, p.tof4), (TOF5, p.tof5), (TOF6, p.tof6), (TOF7, p.tof7),
     (EVENT_TIMING_1, p.eventTiming1), (EVENT_TIMING_2, p.eventTiming2), (TOF_DELAY, p.tofDelay), (CAL_CTRL, p.calCtrl)]
  }

  /** The eleven registers hold the profile. */
  predicate Holds(registers: seq<uint16>, p: Profile)
    requires |registers| == REGISTER_COUNT
  {
    && registers[8] == p.tof1 && registers[9] == p.tof2 && registers[10] == p.tof3 && registers[11] == p.tof4
    && registers[12] == p.tof5 && registers[13] == p.tof6 && registers[14] == p.tof7
    && registers[15] == p.eventTiming1 && registers[16] == p.eventTiming2 && registers[17] == p.tofDelay
    && registers[18] == p.calCtrl
  }

  datatype HostState = Uninit | HostIdle | HostBusy | HostError

  datatype Host = Host(
    deviceReady: bool, state: HostState, eventTimingActive: bool, spiPending: bool,
    configured: bool, synchronized: bool, active: Profile)

  datatype Status = Ok | InvalidArg | NotReady | Busy | ConfigError | SpiError

  function Invalidated(h: Host): Host {
    h.(configured := false, synchronized := false)
  }

  function InError(h: Host): Host {
    h.(state := HostError, spiPending := false)
  }

  predicate MayConfigure(h: Host) {
    h.state == HostIdle && !h.eventTimingActive && !h.spiPending
  }

  /** The writes of MAX35103_Configure from entry i on, each read back. */
  function WriteEntries(d: Device, entries: seq<(uint8, uint16)>, i: nat): (Device, Status)
    requires |d.registers| == REGISTER_COUNT && i <= |entries|
    decreases |entries| - i
  {
    if i == |entries| then (d, Ok)
    else
      var (opcode, value) := entries[i];
      var (e, written) := SpiWrite(d, opcode, value);
      if !written then (e, SpiError)
      else
        var (f, read, back) := SpiReadBack(e, opcode, 0);
        if !read then (f, SpiError)
        else if back != value then (f, ConfigError)
        else WriteEntries(f, entries, i + 1)
  }

  /** MAX35103_Configure. */
  function Configure(h: Host, d: Device, p: Profile): (Host, Device, Status)
    requires |d.registers| == REGISTER_COUNT
  {
    if !IsValid(p) then (h, d, ConfigError)
    else if !h.deviceReady then (h, d, NotReady)
    else if !MayConfigure(h) then (h, d, Busy)
    else
      var (e, status) := WriteEntries(d, Entries(p), 0);
      if status == Ok then (h.(active := p, configured := true, synchronized := true), e, Ok)
      else (InError(Invalidated(h)), e, status)
  }

  predicate DirectWriteOk(opcode: uint8, value: uint16) {
    && (opcode == TOF1 ==> PL_MIN <= PulseLaunch(value) <= PL_MAX)
    && (opcode == TOF2 ==> StopCode(value) <= STOP_CODE_MAX)
  }

  /** The profile a single write would lead to, when the present one is known. */
  function Candidate(h: Host, opcode: uint8, value: uint16): Option<Profile> {
    if h.configured && h.synchronized then Updated(h.active, opcode, value) else None
  }

  function WriteRefusal(h: Host, opcode: uint8, value: uint16): Option<Status> {
    var candidate := Candidate(h, opcode, value);
    if !IsWriteOpcode(opcode) then Some(InvalidArg)
    else if !h.deviceReady then Some(NotReady)
    else if !MayConfigure(h) then Some(Busy)
    else if !DirectWriteOk(opcode, value) then Some(ConfigError)
    else if candidate.Some? && !IsValid(candidate.value) then Some(ConfigError)
    else None
  }

  /** MAX35103_WriteReg: unverified, so it always ends the proof of the shadow. */
  function WriteReg(h: Host, d: Device, opcode: uint8, value: uint16): (Host, Device, Status)
    requires |d.registers| == REGISTER_COUNT
  {
    var refusal := WriteRefusal(h, opcode, value);
    if refusal.Some? then (h, d, refusal.value)
    else
      var (e, written) := SpiWrite(d, opcode, value);
      (if IsConfigurationWrite(opcode) then Invalidated(h) else h, e, if written then Ok else SpiError)
  }

  /** MAX35103_WriteVerifyReg. */
  function WriteVerifyReg(h: Host, d: Device, opcode: uint8, value: uint16, control: uint16): (Host, Device, Status)
    requires |d.registers| == REGISTER_COUNT
  {
    var refusal := WriteRefusal(h, opcode, value);
    if refusal.Some? then (h, d, refusal.value)
    else
      var dropped := if IsConfigurationWrite(opcode) then Invalidated(h) else h;
      var (e, written) := SpiWrite(d, opcode, value);
      if !written then (dropped, e, SpiError)
      else
        var (f, read, back) := SpiReadBack(e, opcode, control);
        if !read then (dropped, f, SpiError)
        else if back != value then (dropped, f, ConfigError)
        else
          var candidate := Candidate(h, opcode, value);
          (if candidate.Some? then h.(active := candidate.value, configured := true, synchronized := true) else dropped,
           f, Ok)
  }

  // ---------- The shadow is true ----------

  /** Synchronized means: the device holds the active profile, and the profile is valid. */
  predicate ShadowOk(h: Host, d: Device) {
    && |d.registers| == REGISTER_COUNT && (h.synchronized <==> h.configured)
    && (h.synchronized ==> IsValid(h.active) && Holds(d.registers, h.active))
  }

  datatype Call =
    | ConfigureCall(profile: Profile)
    | WriteCall(opcode: uint8, value: uint16)
    | VerifyCall(opcode: uint8, value: uint16, control: uint16)
    | ResetCall(registers: seq<uint16>, ready: bool, endState: HostState)
    | OtherCall(after: Host)

  /** Reset forgets the shadow first. Every other call leaves the profile and the registers alone, or drops the shadow. */
  predicate Possible(h: Host, c: Call) {
    match c
    case ResetCall(registers, _, _) => |registers| == REGISTER_COUNT
    case OtherCall(after) =>
      after.active == h.active && (after.synchronized <==> after.configured) && (after.synchronized ==> h.synchronized)
    case _ => true
  }

  function Step(h: Host, d: Device, c: Call): (Host, Device)
    requires |d.registers| == REGISTER_COUNT
  {
    match c
    case ConfigureCall(p) => var (h', d', _) := Configure(h, d, p); (h', d')
    case WriteCall(opcode, value) => var (h', d', _) := WriteReg(h, d, opcode, value); (h', d')
    case VerifyCall(opcode, value, control) => var (h', d', _) := WriteVerifyReg(h, d, opcode, value, control); (h', d')
    case ResetCall(registers, ready, endState) =>
      (Invalidated(h).(deviceReady := ready, state := endState), d.(registers := registers))
    case OtherCall(after) => (after, d)
  }

  /** Entry i's register, once it reads back as written, is what the profile asks for; later entries leave it alone. */
  lemma {:induction false} EntriesWritten(d: Device, entries: seq<(uint8, uint16)>, i: nat)
    requires |d.registers| == REGISTER_COUNT && i <= |entries|
    requires forall j :: 0 <= j < |entries| ==> IsConfigurationWrite(entries[j].0)
    requires forall j, k :: 0 <= j < k < |entries| ==> entries[j].0 != entries[k].0
    requires forall j :: 0 <= j < i ==>
      IsConfigurationWrite(entries[j].0) && d.registers[entries[j].0 - FIRST_REGISTER] == entries[j].1
    requires WriteEntries(d, entries, i).1 == Ok
    ensures var e := WriteEntries(d, entries, i).0;
      && |e.registers| == REGISTER_COUNT
      && forall j :: 0 <= j < |entries| ==>
           IsConfigurationWrite(entries[j].0) && e.registers[entries[j].0 - FIRST_REGISTER] == entries[j].1
    decreases |entries| - i
  {
    if i < |entries| {
      var (opcode, value) := entries[i];
      var e := SpiWrite(d, opcode, value).0;
      var f := SpiReadBack(e, opcode, 0).0;
      EntriesWritten(f, entries, i + 1);
    }
  }

  lemma {:induction false} EntriesKeepShape(d: Device, entries: seq<(uint8, uint16)>, i: nat)
    requires |d.registers| == REGISTER_COUNT && i <= |entries|
    ensures |WriteEntries(d, entries, i).0.registers| == REGISTER_COUNT
    decreases |entries| - i
  {
    if i < |entries| {
      var (opcode, value) := entries[i];
      EntriesKeepShape(SpiReadBack(SpiWrite(d, opcode, value).0, opcode, 0).0, entries, i + 1);
    }
  }

  /** Configure succeeds only with the whole profile in the device, and if it fails after its guards nothing is claimed
      any more; a refusal changes nothing. */
  lemma ConfigureIsExact(h: Host, d: Device, p: Profile)
    requires |d.registers| == REGISTER_COUNT
    ensures var (h', d', status) := Configure(h, d, p);
      && |d'.registers| == REGISTER_COUNT
      && (status == Ok ==> h' == h.(active := p, configured := true, synchronized := true) && IsValid(p) && Holds(d'.registers, p))
      && (status != Ok ==> (h', d') == (h, d) || (!h'.synchronized && !h'.configured && h'.state == HostError))
  {
    EntriesKeepShape(d, Entries(p), 0);
    if WriteEntries(d, Entries(p), 0).1 == Ok {
      EntriesWritten(d, Entries(p), 0);
      EntriesHold(WriteEntries(d, Entries(p), 0).0.registers, p);
    }
    hide IsValid, WriteEntries, Holds;
  }

  predicate FaultFree(d: Device, n: nat) {
    n <= |d.frames| && forall k :: 0 <= k < n ==> d.frames[k] == Frame(true, true)
  }

  lemma {:induction false} FaultFreeWrites(d: Device, entries: seq<(uint8, uint16)>, i: nat)
    requires |d.registers| == REGISTER_COUNT && i <= |entries| && FaultFree(d, 2 * (|entries| - i))
    requires forall j :: 0 <= j < |entries| ==> IsConfigurationWrite(entries[j].0)
    ensures WriteEntries(d, entries, i).1 == Ok
    decreases |entries| - i
  {
    if i < |entries| {
      var (opcode, value) := entries[i];
      FaultFreeWrites(SpiReadBack(SpiWrite(d, opcode, value).0, opcode, 0).0, entries, i + 1);
    }
  }

  /** And it does succeed when it may be called, the profile is valid and its 22 frames go through. */
  lemma FaultFreeConfigures(h: Host, d: Device, p: Profile)
    requires |d.registers| == REGISTER_COUNT && FaultFree(d, 22)
    ensures Configure(h, d, p).2 == Ok <==> IsValid(p) && h.deviceReady && MayConfigure(h)
  {
    FaultFreeWrites(d, Entries(p), 0);
    hide IsValid, WriteEntries;
  }

  lemma EntriesHold(registers: seq<uint16>, p: Profile)
    requires |registers| == REGISTER_COUNT
    requires forall j :: 0 <= j < 11 ==>
      IsConfigurationWrite(Entries(p)[j].0) && registers[Entries(p)[j].0 - FIRST_REGISTER] == Entries(p)[j].1
    ensures Holds(registers, p)
  {
    var e := Entries(p);
    assert registers[e[0].0 - FIRST_REGISTER] == e[0].1 && registers[e[1].0 - FIRST_REGISTER] == e[1].1;
    assert registers[e[2].0 - FIRST_REGISTER] == e[2].1 && registers[e[3].0 - FIRST_REGISTER] == e[3].1;
    assert registers[e[4].0 - FIRST_REGISTER] == e[4].1 && registers[e[5].0 - FIRST_REGISTER] == e[5].1;
    assert registers[e[6].0 - FIRST_REGISTER] == e[6].1 && registers[e[7].0 - FIRST_REGISTER] == e[7].1;
    assert registers[e[8].0 - FIRST_REGISTER] == e[8].1 && registers[e[9].0 - FIRST_REGISTER] == e[9].1;
    assert registers[e[10].0 - FIRST_REGISTER] == e[10].1;
  }

  /** A verified write of one register turns a held profile into the held candidate, whether or not it took effect. */
  lemma UpdateHolds(registers: seq<uint16>, p: Profile, opcode: uint8, value: uint16)
    requires |registers| == REGISTER_COUNT && IsConfigurationWrite(opcode) && Holds(registers, p)
    requires Updated(p, opcode, value).Some?
    ensures Holds(registers[opcode - FIRST_REGISTER := value], Updated(p, opcode, value).value)
  {
  }

  lemma StepKeepsShadow(h: Host, d: Device, c: Call)
    requires ShadowOk(h, d) && Possible(h, c)
    ensures var (h', d') := Step(h, d, c); ShadowOk(h', d')
  {
    hide IsValid;
    match c
    case ConfigureCall(p) =>
      ConfigureIsExact(h, d, p);
    case VerifyCall(opcode, value, control) =>
      if Candidate(h, opcode, value).Some? {
        UpdateHolds(d.registers, h.active, opcode, value);
        hide Holds;
        var (e, written) := SpiWrite(d, opcode, value);
        if e.registers[opcode - FIRST_REGISTER] == value {
          assert e.registers == d.registers[opcode - FIRST_REGISTER := value];
        }
      }
    case _ =>
  }

  ghost predicate IsRun(h: Host, d: Device, calls: seq<Call>, h': Host, d': Device)
    decreases |calls|
  {
    if calls == [] then (h', d') == (h, d)
    else |d.registers| == REGISTER_COUNT && Possible(h, calls[0])
         && var (i, e) := Step(h, d, calls[0]); IsRun(i, e, calls[1..], h', d')
  }

  /** Over any run of configurations, direct and verified writes, resets and failing or ignored frames. */
  lemma {:induction false} ShadowIsTrue(h: Host, d: Device, calls: seq<Call>, h': Host, d': Device)
    requires ShadowOk(h, d) && IsRun(h, d, calls, h', d')
    ensures ShadowOk(h', d')
    decreases |calls|
  {
    if calls != [] {
      StepKeepsShadow(h, d, calls[0]);
      var (i, e) := Step(h, d, calls[0]);
      hide ShadowOk, Step;
      ShadowIsTrue(i, e, calls[1..], h', d');
    }
  }
}
