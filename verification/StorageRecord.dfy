/** Slot layout, encoder, decoder and classifier of storage_record.[ch]. */
module StorageRecord {
  import opened Bits
  import opened LittleEndian
  import Crc32

  const HEADER_SIZE: nat := 16
  const CRC_HEADER_LENGTH: nat := 12
  const COMMIT_VALID: uint8 := 0xA5
  const COMMIT_INVALID: uint8 := 0x00
  const MAGIC: uint32 := 0x5357_4650
  const TYPE_CONFIG: uint8 := 1
  const TYPE_CALIBRATION: uint8 := 2
  const TYPE_VOLUME: uint8 := 3
  const VOLUME_SLOT_SIZE: nat := 64
  const VOLUME_SCHEMA: uint8 := 1
  const VOLUME_PAYLOAD_SIZE: uint16 := 44
  const REMAINDER_LIMIT: nat := 1_000_000
  const MAX_SLOT: nat := 256

  datatype Option<+T> = None | Some(value: T)

  datatype Classification =
    | ValidCompatible | ValidUnsupportedSchema | ValidIncompatible | EmptyUninitialized | NotCommitted
    | BadMagic | BadType | BadLength | BadReserved | BadCrc | BadPayload | IoError

  /** The seven values of volume payload schema 1. */
  datatype Volume = Volume(
    forward: uint64, reverse: uint64, forwardRemainder: uint64, reverseRemainder: uint64,
    stateVersion: uint64, lastFlowSequence: uint64, lastSourceGeneration: uint32)
  {
    predicate RemaindersInRange() {
      forwardRemainder < REMAINDER_LIMIT && reverseRemainder < REMAINDER_LIMIT
    }
  }

  type Slot = seq<uint8>

  // ---------- Checksum ----------

  /** The bytes under the checksum: header 0..11 and the declared payload. */
  function Covered(slot: Slot): Slot
    requires HEADER_SIZE + 1 <= |slot|
    requires Read16(slot, 6) <= |slot| - HEADER_SIZE - 1
  {
    slot[..CRC_HEADER_LENGTH] + slot[HEADER_SIZE..HEADER_SIZE + Read16(slot, 6)]
  }

  function RecordCrc(slot: Slot): uint32 {
    if |slot| < HEADER_SIZE + 1 || |slot| > MAX_SLOT then 0
    else if Read16(slot, 6) > |slot| - HEADER_SIZE - 1 then 0
    else Crc32.Checksum(Covered(slot))
  }

  method ComputeCrc(slot: array<uint8>) returns (r: uint32)
    ensures r == RecordCrc(slot[..])
  {
    if slot.Length < HEADER_SIZE + 1 || slot.Length > MAX_SLOT {
      return 0;
    }
    var payloadLength := Read16(slot[..], 6);
    if payloadLength > slot.Length - HEADER_SIZE - 1 {
      return 0;
    }
    r := Crc32.Crc32Reflected(slot[..CRC_HEADER_LENGTH] + slot[HEADER_SIZE..HEADER_SIZE + payloadLength]);
    assert slot[..][..CRC_HEADER_LENGTH] == slot[..CRC_HEADER_LENGTH];
    assert slot[..][HEADER_SIZE..HEADER_SIZE + payloadLength] == slot[HEADER_SIZE..HEADER_SIZE + payloadLength];
  }

  // ---------- Encoding ----------

  function VolumeHeader(sequence: uint32): (bytes: Slot)
    ensures |bytes| == CRC_HEADER_LENGTH
  {
    Encoded(MAGIC, U32) + [TYPE_VOLUME, VOLUME_SCHEMA] + Encoded(VOLUME_PAYLOAD_SIZE, U16) + Encoded(sequence, U32)
  }

  function VolumeTotals(v: Volume): (bytes: Slot)
    ensures |bytes| == 24
  {
    (Encoded(v.forward, U64) + Encoded(v.reverse, U64))
    + (Encoded(v.forwardRemainder, U32) + Encoded(v.reverseRemainder, U32))
  }

  function VolumeOrigin(v: Volume): (bytes: Slot)
    ensures |bytes| == 20
  {
    (Encoded(v.stateVersion, U64) + Encoded(v.lastFlowSequence, U64)) + Encoded(v.lastSourceGeneration, U32)
  }

  function VolumePayload(v: Volume): (bytes: Slot)
    ensures |bytes| == VOLUME_PAYLOAD_SIZE
  {
    VolumeTotals(v) + VolumeOrigin(v)
  }

  function VolumeCrc(sequence: uint32, v: Volume): uint32 {
    Crc32.Checksum(VolumeHeader(sequence) + VolumePayload(v))
  }

  /** The 63 bytes before the commit byte. */
  function VolumeBody(sequence: uint32, v: Volume): (bytes: Slot)
    ensures |bytes| == VOLUME_SLOT_SIZE - 1
  {
    VolumeHeader(sequence) + Encoded(VolumeCrc(sequence, v), U32) + VolumePayload(v) + [0, 0, 0]
  }

  /** The record on media, for a given commit byte. */
  function VolumeSlot(sequence: uint32, v: Volume, commit: uint8): (bytes: Slot)
    ensures |bytes| == VOLUME_SLOT_SIZE
  {
    VolumeBody(sequence, v) + [commit]
  }

  /** le_write16, le_write32 and le_write64: n bytes at an offset, the rest of the buffer untouched. */
  method WriteLe(buf: array<uint8>, at: nat, val: nat, n: nat)
    requires at + n <= buf.Length
    modifies buf
    ensures buf[..] == old(buf[..at]) + Encoded(val, n) + old(buf[at + n..])
  {
    var rest := val;
    for i := 0 to n
      invariant buf[..at] == old(buf[..at]) && buf[at + i..] == old(buf[at + i..])
      invariant buf[at..at + i] + Encoded(rest, n - i) == Encoded(val, n)
    {
      ghost var before := buf[at..at + i];
      buf[at + i] := rest % 0x100;
      assert buf[at..at + i + 1] == before + [rest % 0x100];
      rest := rest / 0x100;
    }
    assert buf[..] == buf[..at] + buf[at..at + n] + buf[at + n..];
  }

  function Zeros(n: nat): (z: Slot)
    ensures |z| == n && forall i :: 0 <= i < n ==> z[i] == 0
  {
    seq(n, _ => 0)
  }

  /** Writing the field that follows what has been written so far. */
  method PutNext(slot: array<uint8>, at: nat, val: nat, n: nat, ghost front: Slot)
    requires at == |front| && at + n <= slot.Length
    requires slot[..] == front + Zeros(slot.Length - at)
    modifies slot
    ensures slot[..] == front + Encoded(val, n) + Zeros(slot.Length - at - n)
  {
    WriteLe(slot, at, val, n);
    assert old(slot[..at]) == old(slot[..])[..at] == front;
    assert old(slot[at + n..]) == old(slot[..])[at + n..] == Zeros(slot.Length - at - n);
  }

  method PutHeader(slot: array<uint8>, sequence: uint32)
    requires slot.Length == VOLUME_SLOT_SIZE
    modifies slot
    ensures slot[..] == VolumeHeader(sequence) + Zeros(52)
  {
    for i := 0 to slot.Length
      invariant forall k :: 0 <= k < i ==> slot[k] == 0
    {
      slot[i] := 0;
    }
    assert slot[..] == [] + Zeros(64);
    PutNext(slot, 0, MAGIC, U32, []);
    slot[4] := TYPE_VOLUME;
    slot[5] := VOLUME_SCHEMA;
    ghost var front := Encoded(MAGIC, U32) + [TYPE_VOLUME, VOLUME_SCHEMA];
    assert slot[..] == front + Zeros(58);
    PutNext(slot, 6, VOLUME_PAYLOAD_SIZE, U16, front);
    PutNext(slot, 8, sequence, U32, front + Encoded(VOLUME_PAYLOAD_SIZE, U16));
  }

  method PutPair(slot: array<uint8>, at: nat, a: nat, b: nat, n: nat, ghost front: Slot)
    requires at == |front| && at + 2 * n <= slot.Length
    requires slot[..] == front + Zeros(slot.Length - at)
    modifies slot
    ensures slot[..] == front + (Encoded(a, n) + Encoded(b, n)) + Zeros(slot.Length - at - 2 * n)
  {
    PutNext(slot, at, a, n, front);
    PutNext(slot, at + n, b, n, front + Encoded(a, n));
    assert front + Encoded(a, n) + Encoded(b, n) == front + (Encoded(a, n) + Encoded(b, n));
  }

  method PutTotals(slot: array<uint8>, v: Volume, ghost front: Slot)
    requires slot.Length == VOLUME_SLOT_SIZE && |front| == HEADER_SIZE
    requires slot[..] == front + Zeros(48)
    modifies slot
    ensures slot[..] == front + VolumeTotals(v) + Zeros(24)
  {
    PutPair(slot, 0x10, v.forward, v.reverse, U64, front);
    ghost var volumes := Encoded(v.forward, U64) + Encoded(v.reverse, U64);
    PutPair(slot, 0x20, v.forwardRemainder, v.reverseRemainder, U32, front + volumes);
    ghost var remainders := Encoded(v.forwardRemainder, U32) + Encoded(v.reverseRemainder, U32);
    assert front + volumes + remainders == front + VolumeTotals(v);
  }

  method PutOrigin(slot: array<uint8>, v: Volume, ghost front: Slot)
    requires slot.Length == VOLUME_SLOT_SIZE && |front| == 40
    requires slot[..] == front + Zeros(24)
    modifies slot
    ensures slot[..] == front + VolumeOrigin(v) + Zeros(4)
  {
    PutPair(slot, 0x28, v.stateVersion, v.lastFlowSequence, U64, front);
    ghost var versions := Encoded(v.stateVersion, U64) + Encoded(v.lastFlowSequence, U64);
    PutNext(slot, 0x38, v.lastSourceGeneration, U32, front + versions);
    assert front + versions + Encoded(v.lastSourceGeneration, U32) == front + VolumeOrigin(v);
  }

  /** The buffer with everything in place but the checksum. */
  function Blank(sequence: uint32, v: Volume): (bytes: Slot)
    ensures |bytes| == VOLUME_SLOT_SIZE
  {
    VolumeHeader(sequence) + Zeros(4) + VolumePayload(v) + Zeros(4)
  }

  method PutBlank(slot: array<uint8>, sequence: uint32, v: Volume)
    requires slot.Length == VOLUME_SLOT_SIZE
    modifies slot
    ensures slot[..] == Blank(sequence, v)
  {
    hide VolumeHeader, VolumeTotals, VolumeOrigin;
    PutHeader(slot, sequence);
    ghost var front := VolumeHeader(sequence) + Zeros(4);
    assert Zeros(52) == Zeros(4) + Zeros(48);
    PutTotals(slot, v, front);
    PutOrigin(slot, v, front + VolumeTotals(v));
    assert front + VolumeTotals(v) + VolumeOrigin(v) == front + VolumePayload(v);
  }

  /** StorageRecord_EncodeVolume: 64 bytes written, or none. */
  method EncodeVolume(slot: array<uint8>, sequence: uint32, v: Volume) returns (length: uint16)
    requires slot.Length == VOLUME_SLOT_SIZE
    modifies slot
    ensures !v.RemaindersInRange() ==> length == 0 && slot[..] == old(slot[..])
    ensures v.RemaindersInRange() ==> length == VOLUME_SLOT_SIZE && slot[..] == VolumeSlot(sequence, v, COMMIT_INVALID)
  {
    hide VolumeHeader, VolumePayload, VolumeCrc, RecordCrc, Encoded;
    if v.forwardRemainder >= REMAINDER_LIMIT || v.reverseRemainder >= REMAINDER_LIMIT {
      return 0;
    }
    PutBlank(slot, sequence, v);
    ghost var blank := slot[..];
    CrcOfBlank(sequence, v);
    var crc := ComputeCrc(slot);
    WriteLe(slot, 0x0C, crc, U32);
    ghost var checked := slot[..];
    slot[VOLUME_SLOT_SIZE - 1] := COMMIT_INVALID;
    assert slot[..] == checked[..63] + [COMMIT_INVALID];
    assert checked == blank[..12] + Encoded(crc, U32) + blank[16..];
    Assemble(checked, VolumeHeader(sequence), Zeros(4), VolumePayload(v), Encoded(crc, U32));
    length := 64;
  }

  lemma Assemble(checked: Slot, header: Slot, gap: Slot, payload: Slot, crc: Slot)
    requires |header| == 12 && |gap| == 4 && |payload| == 44 && |crc| == 4
    requires var blank := header + gap + payload + Zeros(4);
      checked == blank[..12] + crc + blank[16..]
    ensures checked[..63] == header + crc + payload + [0, 0, 0]
  {
    var blank := header + gap + payload + Zeros(4);
    assert blank[..12] == header;
    assert blank[16..] == payload + Zeros(4);
  }

  /** Before the checksum is written, the buffer already has the checksum that will be written. */
  lemma CrcOfBlank(sequence: uint32, v: Volume)
    ensures RecordCrc(Blank(sequence, v)) == VolumeCrc(sequence, v)
  {
    var h, p := VolumeHeader(sequence), VolumePayload(v);
    var blank := Blank(sequence, v);
    assert blank[..12] == h && blank[16..60] == p;
    LengthField(blank, sequence);
  }

  lemma LengthField(slot: Slot, sequence: uint32)
    requires 12 <= |slot| && slot[..12] == VolumeHeader(sequence)
    ensures Read16(slot, 6) == VOLUME_PAYLOAD_SIZE
    ensures Read32(slot, 0) == MAGIC && slot[4] == TYPE_VOLUME && slot[5] == VOLUME_SCHEMA
    ensures Read32(slot, 8) == sequence
  {
    HeaderParts(slot, Encoded(MAGIC, U32), [TYPE_VOLUME, VOLUME_SCHEMA], Encoded(VOLUME_PAYLOAD_SIZE, U16),
                Encoded(sequence, U32));
    Read32IsValue(slot, 0);
    Read16IsValue(slot, 6);
    Read32IsValue(slot, 8);
    EncodedFields();
  }

  lemma HeaderParts(slot: Slot, magic: Slot, kind: Slot, length: Slot, sequence: Slot)
    requires |magic| == 4 && |kind| == 2 && |length| == 2 && |sequence| == 4
    requires 12 <= |slot| && slot[..12] == magic + kind + length + sequence
    ensures slot[0..4] == magic && slot[4] == kind[0] && slot[5] == kind[1]
    ensures slot[6..8] == length && slot[8..12] == sequence
  {
    var h := slot[..12];
    assert h[0..4] == magic && h[4] == kind[0] && h[5] == kind[1] && h[6..8] == length && h[8..12] == sequence;
    assert slot[0..4] == h[0..4] && slot[6..8] == h[6..8] && slot[8..12] == h[8..12];
  }

  // ---------- Classification ----------

  predicate AllZero(bytes: Slot) {
    forall i :: 0 <= i < |bytes| ==> bytes[i] == 0
  }

  predicate IsVolumeSchema(kind: uint8, schema: uint8) {
    kind == TYPE_VOLUME && schema == VOLUME_SCHEMA
  }

  /** The structural gates, in the order the firmware applies them. The semantic gate of the volume schema reads
      offsets 0x20..0x27, so callers must bring a slot that has them, or ask for a
      payload that ends behind them. */
  function Classify(slot: Slot, kind: uint8, schema: uint8, payloadSize: uint16): Classification
    requires IsVolumeSchema(kind, schema) ==> 0x28 <= |slot| || 24 <= payloadSize
  {
    if |slot| < HEADER_SIZE + 1 || |slot| > MAX_SLOT then BadLength
    else if AllZero(slot) then EmptyUninitialized
    else if slot[|slot| - 1] != COMMIT_VALID then NotCommitted
    else if Read32(slot, 0) != MAGIC then BadMagic
    else if slot[4] != kind then BadType
    else if Read16(slot, 6) + HEADER_SIZE + 1 > |slot| then BadLength
    else if Read32(slot, 12) != RecordCrc(slot) then BadCrc
    else if !AllZero(slot[HEADER_SIZE + Read16(slot, 6)..|slot| - 1]) then BadReserved
    else if slot[5] != schema then ValidUnsupportedSchema
    else if Read16(slot, 6) != payloadSize then BadLength
    else if IsVolumeSchema(kind, schema)
            && (Read32(slot, 0x20) >= REMAINDER_LIMIT || Read32(slot, 0x24) >= REMAINDER_LIMIT) then BadPayload
    else ValidCompatible
  }

  method IsAllZero(slot: array<uint8>, from: nat, to: nat) returns (zero: bool)
    requires from <= to <= slot.Length
    ensures zero <==> AllZero(slot[from..to])
  {
    for i := from to to
      invariant AllZero(slot[from..i])
    {
      if slot[i] != 0 {
        assert slot[from..to][i - from] != 0;
        return false;
      }
    }
    zero := true;
  }

  method ClassifySlot(slot: array<uint8>, kind: uint8, schema: uint8, payloadSize: uint16)
      returns (c: Classification)
    requires IsVolumeSchema(kind, schema) ==> 0x28 <= slot.Length || 24 <= payloadSize
    ensures c == Classify(slot[..], kind, schema, payloadSize)
  {
    hide RecordCrc;
    var size := slot.Length;
    if size < HEADER_SIZE + 1 || size > MAX_SLOT {
      return BadLength;
    }
    var allZero := IsAllZero(slot, 0, size);
    assert slot[0..size] == slot[..];
    if allZero {
      return EmptyUninitialized;
    }
    if slot[size - 1] != COMMIT_VALID {
      return NotCommitted;
    }
    if Read32(slot[..], 0) != MAGIC {
      return BadMagic;
    }
    if slot[4] != kind {
      return BadType;
    }
    var payloadLength := Read16(slot[..], 6);
    if payloadLength + HEADER_SIZE + 1 > size {
      return BadLength;
    }
    var actualCrc := ComputeCrc(slot);
    if Read32(slot[..], 12) != actualCrc {
      return BadCrc;
    }
    var reservedZero := IsAllZero(slot, HEADER_SIZE + payloadLength, size - 1);
    assert slot[..][HEADER_SIZE + payloadLength..size - 1] == slot[HEADER_SIZE + payloadLength..size - 1];
    if !reservedZero {
      return BadReserved;
    }
    if slot[5] != schema {
      return ValidUnsupportedSchema;
    }
    if payloadLength != payloadSize {
      return BadLength;
    }
    if IsVolumeSchema(kind, schema) {
      if Read32(slot[..], 0x20) >= REMAINDER_LIMIT || Read32(slot[..], 0x24) >= REMAINDER_LIMIT {
        return BadPayload;
      }
    }
    c := ValidCompatible;
  }

  // ---------- Decoding ----------

  /** What StorageRecord_DecodeVolume yields; the sequence is read separately, at offset 8. */
  function Decode(slot: Slot): Option<Volume>
    requires |slot| == VOLUME_SLOT_SIZE
  {
    if || Read32(slot, 0) != MAGIC || slot[4] != TYPE_VOLUME || slot[5] != VOLUME_SCHEMA
       || Read16(slot, 6) != VOLUME_PAYLOAD_SIZE
       || Read32(slot, 0x20) >= REMAINDER_LIMIT || Read32(slot, 0x24) >= REMAINDER_LIMIT
    then None
    else Some(DecodedVolume(slot))
  }

  function DecodedVolume(slot: Slot): Volume
    requires |slot| == VOLUME_SLOT_SIZE
  {
    Volume(ReadU64(slot, 0x10), ReadU64(slot, 0x18), Read32(slot, 0x20), Read32(slot, 0x24),
           ReadU64(slot, 0x28), ReadU64(slot, 0x30), Read32(slot, 0x38))
  }

  function ReadU64(slot: Slot, at: nat): uint64
    requires at + 8 <= |slot|
  {
    ValueFits64(slot[at..at + 8]);
    Value(slot[at..at + 8])
  }

  method DecodeVolume(slot: Slot) returns (v: Option<Volume>)
    requires |slot| == VOLUME_SLOT_SIZE
    ensures v == Decode(slot)
  {
    if Read32(slot, 0) != MAGIC || slot[4] != TYPE_VOLUME || slot[5] != VOLUME_SCHEMA {
      return None;
    }
    if Read16(slot, 6) != VOLUME_PAYLOAD_SIZE {
      return None;
    }
    var forwardRemainder, reverseRemainder := Read32(slot, 0x20), Read32(slot, 0x24);
    if forwardRemainder >= REMAINDER_LIMIT || reverseRemainder >= REMAINDER_LIMIT {
      return None;
    }
    var forward := Read64(slot, 0x10);
    var reverse := Read64(slot, 0x18);
    var stateVersion := Read64(slot, 0x28);
    var lastFlowSequence := Read64(slot, 0x30);
    v := Some(Volume(forward, reverse, forwardRemainder, reverseRemainder,
                     stateVersion, lastFlowSequence, Read32(slot, 0x38)));
  }

  // ---------- Corruption is detected ----------

  ghost predicate Valid(slot: Slot, kind: uint8, schema: uint8, payloadSize: uint16) {
    && (IsVolumeSchema(kind, schema) ==> 0x28 <= |slot| || 24 <= payloadSize)
    && Classify(slot, kind, schema, payloadSize) == ValidCompatible
  }

  lemma Read32Injective(s: Slot, t: Slot, at: nat)
    requires at + 4 <= |s| && at + 4 <= |t| && Read32(s, at) == Read32(t, at)
    ensures s[at..at + 4] == t[at..at + 4]
  {
    Read32IsValue(s, at);
    Read32IsValue(t, at);
    EncodedOfValue(s[at..at + 4]);
    EncodedOfValue(t[at..at + 4]);
  }

  /** Two valid slots of one schema can only differ in sequence, checksum and payload. */
  lemma ValidSlotsAgree(s: Slot, t: Slot, kind: uint8, schema: uint8, p: uint16)
    requires |s| == |t| && Valid(s, kind, schema, p) && Valid(t, kind, schema, p)
    ensures HEADER_SIZE + p + 1 <= |s| <= MAX_SLOT
    ensures s[..8] == t[..8]
    ensures s[HEADER_SIZE + p..] == t[HEADER_SIZE + p..]
  {
    hide RecordCrc;
    Read32Injective(s, t, 0);
    assert s[..8] == s[0..4] + s[4..8] && t[..8] == t[0..4] + t[4..8];
    assert s[4..8] == t[4..8];
    var sr, tr := s[HEADER_SIZE + p..|s| - 1], t[HEADER_SIZE + p..|t| - 1];
    assert sr == tr;
    assert s[HEADER_SIZE + p..] == sr + [COMMIT_VALID];
    assert t[HEADER_SIZE + p..] == tr + [COMMIT_VALID];
  }

  /** A valid slot's checksum field holds the checksum of what it covers. */
  lemma ValidChecksum(s: Slot, kind: uint8, schema: uint8, p: uint16)
    requires Valid(s, kind, schema, p)
    ensures HEADER_SIZE + p + 1 <= |s|
    ensures Read32(s, 12) == Crc32.Checksum(s[..12] + s[16..16 + p])
  {
    hide Crc32.Checksum;
  }

  /** s and t are the same but for the n bytes at the given offset. */
  ghost predicate DifferWithin(s: Slot, t: Slot, at: nat, n: nat) {
    at + n <= |s| == |t| && forall k :: 0 <= k < |s| && !(at <= k < at + n) ==> s[k] == t[k]
  }

  lemma SameOutside(s: Slot, t: Slot, at: nat, n: nat, from: nat, to: nat)
    requires DifferWithin(s, t, at, n) && from <= to <= |s| && (to <= at || at + n <= from)
    ensures s[from..to] == t[from..to]
  {
  }

  /** Damage of at most four neighbouring bytes inside the covered bytes is detected: front and back are the
      covered bytes around it. */
  lemma CoveredBurstDetected(s: Slot, t: Slot, at: nat, n: nat, front: Slot, back: Slot,
                             kind: uint8, schema: uint8, p: uint16)
    requires Valid(s, kind, schema, p) && Valid(t, kind, schema, p)
    requires DifferWithin(s, t, at, n) && n <= 4 && (at + n <= 12 || 16 <= at)
    requires HEADER_SIZE + p + 1 <= |s|
    requires s[..12] + s[16..16 + p] == front + s[at..at + n] + back
    requires t[..12] + t[16..16 + p] == front + t[at..at + n] + back
    ensures s == t
  {
    hide Crc32.Checksum, Classify;
    ValidChecksum(s, kind, schema, p);
    ValidChecksum(t, kind, schema, p);
    Crc32.BurstDetected(front, s[at..at + n], t[at..at + n], back);
    SameWindow(s, t, at, n);
  }

  /** Any damage confined to four neighbouring bytes of the payload is detected. */
  lemma PayloadBurstDetected(s: Slot, t: Slot, at: nat, n: nat, kind: uint8, schema: uint8, p: uint16)
    requires Valid(s, kind, schema, p) && Valid(t, kind, schema, p)
    requires DifferWithin(s, t, at, n) && n <= 4 && HEADER_SIZE <= at && at + n <= HEADER_SIZE + p
    ensures s == t
  {
    hide Crc32.Checksum, Classify;
    ValidChecksum(s, kind, schema, p);
    var front, back := s[..12] + s[16..at], s[at + n..16 + p];
    SameOutside(s, t, at, n, 0, 12);
    SameOutside(s, t, at, n, 16, at);
    SameOutside(s, t, at, n, at + n, 16 + p);
    hide DifferWithin;
    assert s[16..16 + p] == s[16..at] + s[at..at + n] + back;
    assert t[16..16 + p] == t[16..at] + t[at..at + n] + back;
    assert s[..12] + s[16..16 + p] == front + s[at..at + n] + back;
    assert t[..12] + t[16..16 + p] == front + t[at..at + n] + back;
    CoveredBurstDetected(s, t, at, n, front, back, kind, schema, p);
  }

  /** The same for the header, which holds the sequence number. */
  lemma HeaderBurstDetected(s: Slot, t: Slot, at: nat, n: nat, kind: uint8, schema: uint8, p: uint16)
    requires Valid(s, kind, schema, p) && Valid(t, kind, schema, p)
    requires DifferWithin(s, t, at, n) && n <= 4 && at + n <= 12
    ensures s == t
  {
    hide Crc32.Checksum, Classify;
    ValidChecksum(s, kind, schema, p);
    var rest := s[16..16 + p];
    SameOutside(s, t, at, n, 16, 16 + p);
    SameOutside(s, t, at, n, 0, at);
    SameOutside(s, t, at, n, at + n, 12);
    hide DifferWithin;
    assert s[..12] == s[..at] + s[at..at + n] + s[at + n..12];
    assert t[..12] == t[..at] + t[at..at + n] + t[at + n..12];
    var front, back := s[..at], s[at + n..12] + rest;
    assert s[..12] + rest == front + s[at..at + n] + back;
    assert t[..12] + rest == front + t[at..at + n] + back;
    CoveredBurstDetected(s, t, at, n, front, back, kind, schema, p);
  }

  /** The checksum field itself: it is determined by what it covers. */
  lemma ChecksumDamageDetected(s: Slot, t: Slot, at: nat, n: nat, kind: uint8, schema: uint8, p: uint16)
    requires Valid(s, kind, schema, p) && Valid(t, kind, schema, p)
    requires DifferWithin(s, t, at, n) && 12 <= at && at + n <= 16
    ensures s == t
  {
    hide Crc32.Checksum, Classify;
    ValidChecksum(s, kind, schema, p);
    ValidChecksum(t, kind, schema, p);
    assert s[..12] == t[..12] && s[16..16 + p] == t[16..16 + p];
    Read32Injective(s, t, 12);
    assert forall k :: at <= k < at + n ==> s[k] == s[12..16][k - 12] && t[k] == t[12..16][k - 12];
    SameWindow(s, t, at, n);
  }

  lemma SameWindow(s: Slot, t: Slot, at: nat, n: nat)
    requires DifferWithin(s, t, at, n) && s[at..at + n] == t[at..at + n]
    ensures s == t
  {
    assert forall k :: at <= k < at + n ==> s[k] == s[at..at + n][k - at] && t[k] == t[at..at + n][k - at];
  }

  /** The remaining bytes of a valid slot are fixed by its schema. */
  lemma FixedByteDetected(s: Slot, t: Slot, at: nat, kind: uint8, schema: uint8, p: uint16)
    requires Valid(s, kind, schema, p) && Valid(t, kind, schema, p)
    requires DifferWithin(s, t, at, 1) && (at < 8 || HEADER_SIZE + p <= at)
    ensures s == t
  {
    hide Classify;
    ValidSlotsAgree(s, t, kind, schema, p);
    assert forall k :: 0 <= k < 8 ==> s[k] == s[..8][k] && t[k] == t[..8][k];
    var tail := HEADER_SIZE + p;
    assert forall k :: tail <= k < |s| ==> s[k] == s[tail..][k - tail] && t[k] == t[tail..][k - tail];
  }

  /** Changing any one byte of a valid slot, wherever it is, makes it no longer valid. */
  lemma SingleByteDetected(s: Slot, at: nat, b: uint8, kind: uint8, schema: uint8, p: uint16)
    requires Valid(s, kind, schema, p) && at < |s| && b != s[at]
    ensures !Valid(s[at := b], kind, schema, p)
  {
    var t := s[at := b];
    if Valid(t, kind, schema, p) {
      hide Classify;
      if at < 8 || HEADER_SIZE + p <= at {
        FixedByteDetected(s, t, at, kind, schema, p);
      } else if at < 12 {
        HeaderBurstDetected(s, t, at, 1, kind, schema, p);
      } else if at < 16 {
        ChecksumDamageDetected(s, t, at, 1, kind, schema, p);
      } else {
        PayloadBurstDetected(s, t, at, 1, kind, schema, p);
      }
    }
  }

  // ---------- Encoding and decoding are inverse ----------

  ghost predicate ValidVolumeSlot(s: Slot) {
    |s| == VOLUME_SLOT_SIZE && Valid(s, TYPE_VOLUME, VOLUME_SCHEMA, VOLUME_PAYLOAD_SIZE)
  }

  lemma Field32(s: Slot, at: nat, val: uint32)
    requires at + U32 <= |s|
    ensures s[at..at + U32] == Encoded(val, U32) <==> Read32(s, at) == val
  {
    Read32IsValue(s, at);
    EncodedFields();
    EncodedOfValue(s[at..at + U32]);
  }

  lemma Field16(s: Slot, at: nat, val: uint16)
    requires at + U16 <= |s|
    ensures s[at..at + U16] == Encoded(val, U16) <==> Read16(s, at) == val
  {
    Read16IsValue(s, at);
    EncodedFields();
    EncodedOfValue(s[at..at + U16]);
  }

  lemma Field64(s: Slot, at: nat, val: uint64)
    requires at + U64 <= |s|
    ensures s[at..at + U64] == Encoded(val, U64) <==> ReadU64(s, at) == val
  {
    EncodedFields();
    EncodedOfValue(s[at..at + U64]);
  }

  lemma HeaderIff(s: Slot, sequence: uint32)
    requires |s| >= 12
    ensures s[..12] == VolumeHeader(sequence)
       <==> && Read32(s, 0) == MAGIC && s[4] == TYPE_VOLUME && s[5] == VOLUME_SCHEMA
            && Read16(s, 6) == VOLUME_PAYLOAD_SIZE && Read32(s, 8) == sequence
  {
    hide Encoded;
    var magic, kind, length, seqno :=
      Encoded(MAGIC, U32), [TYPE_VOLUME, VOLUME_SCHEMA], Encoded(VOLUME_PAYLOAD_SIZE, U16), Encoded(sequence, U32);
    Field32(s, 0, MAGIC);
    Field16(s, 6, VOLUME_PAYLOAD_SIZE);
    Field32(s, 8, sequence);
    if s[..12] == VolumeHeader(sequence) {
      HeaderParts(s, magic, kind, length, seqno);
    }
    assert s[..12] == s[0..4] + s[4..6] + s[6..8] + s[8..12];
    assert s[4..6] == [s[4], s[5]];
  }

  lemma SplitFour(s: Slot, a: Slot, b: Slot, c: Slot, d: Slot)
    requires |s| == |a| + |b| + |c| + |d|
    ensures s == (a + b) + (c + d)
       <==> && s[..|a|] == a && s[|a|..|a| + |b|] == b
            && s[|a| + |b|..|s| - |d|] == c && s[|s| - |d|..] == d
  {
    assert s == s[..|a|] + s[|a|..|a| + |b|] + s[|a| + |b|..|s| - |d|] + s[|s| - |d|..];
    if s == (a + b) + (c + d) {
      assert s[..|a|] == a;
    }
  }

  lemma SubSlice(s: Slot, t: Slot, at: nat, from: nat, to: nat)
    requires at + |t| <= |s| && t == s[at..at + |t|] && from <= to <= |t|
    ensures t[from..to] == s[at + from..at + to]
  {
    assert forall k :: from <= k < to ==> t[k] == s[at + k];
  }

  lemma TotalsIff(s: Slot, v: Volume)
    requires |s| == VOLUME_SLOT_SIZE && v.RemaindersInRange()
    ensures s[0x10..0x28] == VolumeTotals(v)
       <==> && ReadU64(s, 0x10) == v.forward && ReadU64(s, 0x18) == v.reverse
            && Read32(s, 0x20) == v.forwardRemainder && Read32(s, 0x24) == v.reverseRemainder
  {
    hide Encoded;
    Field64(s, 0x10, v.forward);
    Field64(s, 0x18, v.reverse);
    Field32(s, 0x20, v.forwardRemainder);
    Field32(s, 0x24, v.reverseRemainder);
    var t := s[0x10..0x28];
    SplitFour(t, Encoded(v.forward, U64), Encoded(v.reverse, U64),
              Encoded(v.forwardRemainder, U32), Encoded(v.reverseRemainder, U32));
    SubSlice(s, t, 0x10, 0, 8);
    SubSlice(s, t, 0x10, 8, 16);
    SubSlice(s, t, 0x10, 16, 20);
    SubSlice(s, t, 0x10, 20, 24);
  }

  lemma OriginIff(s: Slot, v: Volume)
    requires |s| == VOLUME_SLOT_SIZE
    ensures s[0x28..0x3C] == VolumeOrigin(v)
       <==> && ReadU64(s, 0x28) == v.stateVersion && ReadU64(s, 0x30) == v.lastFlowSequence
            && Read32(s, 0x38) == v.lastSourceGeneration
  {
    hide Encoded;
    Field64(s, 0x28, v.stateVersion);
    Field64(s, 0x30, v.lastFlowSequence);
    Field32(s, 0x38, v.lastSourceGeneration);
    var t := s[0x28..0x3C];
    var last := Encoded(v.lastSourceGeneration, U32);
    SplitFour(t, Encoded(v.stateVersion, U64), Encoded(v.lastFlowSequence, U64), last, []);
    assert last + [] == last;
    SubSlice(s, t, 0x28, 0, 8);
    SubSlice(s, t, 0x28, 8, 16);
    SubSlice(s, t, 0x28, 16, 20);
    assert t[20..] == [];
  }

  /** A slot is a record exactly when its fields are the record's. */
  lemma SlotIff(s: Slot, sequence: uint32, v: Volume, commit: uint8)
    requires |s| == VOLUME_SLOT_SIZE && v.RemaindersInRange()
    ensures s == VolumeSlot(sequence, v, commit)
       <==> && s[..12] == VolumeHeader(sequence) && Read32(s, 12) == VolumeCrc(sequence, v)
            && s[0x10..0x28] == VolumeTotals(v) && s[0x28..0x3C] == VolumeOrigin(v)
            && s[0x3C..0x3F] == [0, 0, 0] && s[0x3F] == commit
  {
    hide Encoded, VolumeHeader, VolumeTotals, VolumeOrigin, VolumeCrc;
    var crc := VolumeCrc(sequence, v);
    Field32(s, 12, crc);
    JoinSlot(s, VolumeHeader(sequence), Encoded(crc, U32), VolumeTotals(v), VolumeOrigin(v), commit);
  }

  lemma JoinSlot(s: Slot, header: Slot, crc: Slot, totals: Slot, origin: Slot, commit: uint8)
    requires |s| == 64 && |header| == 12 && |crc| == 4 && |totals| == 24 && |origin| == 20
    ensures s == header + crc + (totals + origin) + [0, 0, 0] + [commit]
       <==> && s[..12] == header && s[12..16] == crc && s[0x10..0x28] == totals && s[0x28..0x3C] == origin
            && s[0x3C..0x3F] == [0, 0, 0] && s[0x3F] == commit
  {
    var t := header + crc + (totals + origin) + [0, 0, 0] + [commit];
    assert t[..12] == header && t[12..16] == crc && t[0x10..0x28] == totals && t[0x28..0x3C] == origin;
    assert t[0x3C..0x3F] == [0, 0, 0] && t[0x3F] == commit;
    assert s == s[..12] + s[12..16] + (s[0x10..0x28] + s[0x28..0x3C]) + s[0x3C..0x3F] + [s[0x3F]];
  }

  /** A slot whose header and payload are a record's has the record's checksum. */
  lemma RecordChecksum(s: Slot, sequence: uint32, v: Volume)
    requires |s| == VOLUME_SLOT_SIZE && s[..12] == VolumeHeader(sequence)
    requires s[0x10..0x28] == VolumeTotals(v) && s[0x28..0x3C] == VolumeOrigin(v)
    ensures RecordCrc(s) == VolumeCrc(sequence, v)
  {
    hide Crc32.Checksum, VolumeHeader, VolumeTotals, VolumeOrigin;
    HeaderIff(s, sequence);
    assert s[16..60] == s[0x10..0x28] + s[0x28..0x3C];
  }

  /** The valid volume slots are exactly the committed encodings: decoding loses nothing and invents nothing. */
  lemma ValidIffRecord(s: Slot)
    requires |s| == VOLUME_SLOT_SIZE
    ensures ValidVolumeSlot(s)
       <==> && DecodedVolume(s).RemaindersInRange()
            && s == VolumeSlot(Read32(s, 8), DecodedVolume(s), COMMIT_VALID)
  {
    hide RecordCrc, VolumeHeader, VolumeTotals, VolumeOrigin, VolumeCrc, VolumeSlot, VolumeBody, Encoded, Value;
    var v, sequence := DecodedVolume(s), Read32(s, 8);
    HeaderIff(s, sequence);
    if v.RemaindersInRange() {
      TotalsIff(s, v);
      OriginIff(s, v);
      SlotIff(s, sequence, v, COMMIT_VALID);
      if s[..12] == VolumeHeader(sequence) {
        RecordChecksum(s, sequence, v);
      }
      assert AllZero(s[60..63]) <==> s[60..63] == [0, 0, 0];
    }
  }

  /** Encoding, committing, classifying and decoding gives back all seven values and the sequence. */
  lemma RoundTrip(sequence: uint32, v: Volume)
    requires v.RemaindersInRange()
    ensures var s := VolumeSlot(sequence, v, COMMIT_VALID);
      ValidVolumeSlot(s) && Decode(s) == Some(v) && Read32(s, 8) == sequence
  {
    var s := VolumeSlot(sequence, v, COMMIT_VALID);
    RecordFields(sequence, v, COMMIT_VALID);
    hide VolumeSlot, RecordCrc, Value;
    ValidIffRecord(s);
  }

  lemma RecordFields(sequence: uint32, v: Volume, commit: uint8)
    requires v.RemaindersInRange()
    ensures var s := VolumeSlot(sequence, v, commit);
      && DecodedVolume(s) == v && Read32(s, 8) == sequence && Read32(s, 0) == MAGIC && s[4] == TYPE_VOLUME
      && s[5] == VOLUME_SCHEMA && Read16(s, 6) == VOLUME_PAYLOAD_SIZE && s[63] == commit
  {
    hide Encoded, VolumeHeader, VolumeTotals, VolumeOrigin, VolumeCrc, VolumeBody, Value;
    var s := VolumeSlot(sequence, v, commit);
    SlotIff(s, sequence, v, commit);
    HeaderIff(s, sequence);
    TotalsIff(s, v);
    OriginIff(s, v);
  }

  /** A record whose commit byte is not the valid one is never taken for a record. */
  lemma UncommittedIsInvalid(s: Slot)
    requires |s| == VOLUME_SLOT_SIZE && s[VOLUME_SLOT_SIZE - 1] != COMMIT_VALID
    ensures var c := Classify(s, TYPE_VOLUME, VOLUME_SCHEMA, VOLUME_PAYLOAD_SIZE);
      c == if AllZero(s) then EmptyUninitialized else NotCommitted
  {
  }
}
