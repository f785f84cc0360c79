/** A/B slot selection of ab_slot.c. Sequence numbers are compared as in section 3.2 of RFC 1982. */
module AbSlot {
  import opened Bits
  import opened LittleEndian
  import opened StorageRecord

  datatype SequenceOrder = SequenceEqual | ANewer | BNewer | Ambiguous

  datatype SlotIndex = SlotA | SlotB | NoSlot

  datatype SelectionStatus = SelectionNone | Selected | SequenceConflict

  datatype Selection = Selection(
    sequenceA: uint32, sequenceB: uint32, selected: SlotIndex, status: SelectionStatus,
    reasonA: Classification, reasonB: Classification)

  function CompareSequence(a: uint32, b: uint32): SequenceOrder {
    var difference := (a - b) % 0x1_0000_0000;
    if difference == 0 then SequenceEqual
    else if difference == 0x8000_0000 then Ambiguous
    else if difference < 0x8000_0000 then ANewer
    else BNewer
  }

  predicate IsProtected(reason: Classification) {
    reason == ValidUnsupportedSchema || reason == ValidIncompatible
  }

  function Other(slot: SlotIndex): SlotIndex {
    match slot
    case SlotA => SlotB
    case SlotB => SlotA
    case NoSlot => NoSlot
  }

  /** ab_slot_select on two slots of one size. */
  function Select(a: Slot, b: Slot, kind: uint8, schema: uint8, payloadSize: uint16): Selection
    requires |a| == |b| && (IsVolumeSchema(kind, schema) ==> 0x28 <= |a|)
  {
    var reasonA := Classify(a, kind, schema, payloadSize);
    var reasonB := Classify(b, kind, schema, payloadSize);
    var sequenceA := if reasonA == ValidCompatible then Read32(a, 8) else 0;
    var sequenceB := if reasonB == ValidCompatible then Read32(b, 8) else 0;
    var (selected, status) :=
      if reasonA == ValidCompatible && reasonB == ValidCompatible then
        match CompareSequence(sequenceA, sequenceB)
        case SequenceEqual => if a[..|a| - 1] == b[..|b| - 1] then (SlotA, Selected) else (NoSlot, SequenceConflict)
        case Ambiguous => (NoSlot, SequenceConflict)
        case ANewer => (SlotA, Selected)
        case BNewer => (SlotB, Selected)
      else if reasonA == ValidCompatible then (SlotA, Selected)
      else if reasonB == ValidCompatible then (SlotB, Selected)
      else (NoSlot, SelectionNone);
    Selection(sequenceA, sequenceB, selected, status, reasonA, reasonB)
  }

  function ChooseTarget(s: Selection): SlotIndex {
    if s.status == SequenceConflict || IsProtected(s.reasonA) || IsProtected(s.reasonB) then NoSlot
    else if s.status == Selected then (if s.selected == SlotA then SlotB else SlotA)
    else SlotA
  }

  // ---------- Serial numbers ----------

  /** q lies in (0, 2^31) ahead of r. */
  predicate Newer(q: uint32, r: uint32) {
    0 < (q - r) % 0x1_0000_0000 < 0x8000_0000
  }

  /** Counters less than 2^31 apart keep their order when only their low 32 bits are compared. */
  lemma WrappedCountersCompare(i: nat, j: nat)
    requires -0x8000_0000 < i - j < 0x8000_0000
    ensures CompareSequence(i % 0x1_0000_0000, j % 0x1_0000_0000)
         == if i == j then SequenceEqual else if i > j then ANewer else BNewer
  {
    var (p, q) := (i % 0x1_0000_0000, j % 0x1_0000_0000);
    var turns := i / 0x1_0000_0000 - j / 0x1_0000_0000;
    assert p - q == (i - j) - 0x1_0000_0000 * turns;
    assert -1 <= turns <= 1;
  }

  /** Being newer cannot hold both ways, and decides the comparison from either side. */
  lemma NewerDecides(q: uint32, r: uint32)
    ensures Newer(q, r) <==> CompareSequence(q, r) == ANewer
    ensures Newer(q, r) <==> CompareSequence(r, q) == BNewer
    ensures Newer(q, r) ==> !Newer(r, q)
  {
    assert (r - q) % 0x1_0000_0000 == if q == r then 0 else 0x1_0000_0000 - (q - r) % 0x1_0000_0000;
  }

  // ---------- What a commit does to the selection ----------

  function Pair(target: SlotIndex, there: Slot, other: Slot): (Slot, Slot) {
    if target == SlotB then (other, there) else (there, other)
  }

  function SelectVolume(a: Slot, b: Slot): Selection
    requires |a| == |b| == VOLUME_SLOT_SIZE
  {
    Select(a, b, TYPE_VOLUME, VOLUME_SCHEMA, VOLUME_PAYLOAD_SIZE)
  }

  /** A committed record beside another slot is the one selected exactly when the other slot holds no valid record,
      or an older one, or (in slot A only) an identical one. */
  lemma CommittedIsSelectedIff(target: SlotIndex, there: Slot, other: Slot)
    requires target != NoSlot && ValidVolumeSlot(there) && |other| == VOLUME_SLOT_SIZE
    ensures var (a, b) := Pair(target, there, other);
      SelectVolume(a, b).selected == target <==>
        (|| !ValidVolumeSlot(other)
         || Newer(Read32(there, 8), Read32(other, 8))
         || (target == SlotA && there == other))
  {
    hide Classify;
    NewerDecides(Read32(there, 8), Read32(other, 8));
    if ValidVolumeSlot(other) {
      ValidEndsCommitted(there);
      ValidEndsCommitted(other);
      assert there == there[..63] + [COMMIT_VALID] && other == other[..63] + [COMMIT_VALID];
    }
  }

  lemma SelectedIffSome(a: Slot, b: Slot)
    requires |a| == |b| == VOLUME_SLOT_SIZE
    ensures SelectVolume(a, b).status == Selected <==> SelectVolume(a, b).selected != NoSlot
  {
    hide Classify;
  }

  lemma ValidEndsCommitted(s: Slot)
    requires ValidVolumeSlot(s)
    ensures s[VOLUME_SLOT_SIZE - 1] == COMMIT_VALID
  {
    hide RecordCrc;
  }

  /** Whatever becomes of the target slot, as long as it is not a valid record the selected one stays selected. */
  lemma TargetIsExpendable(a: Slot, b: Slot, target: SlotIndex, there: Slot)
    requires |a| == |b| == |there| == VOLUME_SLOT_SIZE
    requires target == ChooseTarget(SelectVolume(a, b)) && target != NoSlot
    requires !ValidVolumeSlot(there)
    ensures var other := if target == SlotB then a else b;
      var (a', b') := Pair(target, there, other);
      && SelectVolume(a', b').status == SelectVolume(a, b).status
      && SelectVolume(a', b').selected == SelectVolume(a, b).selected
      && SelectVolume(a, b).selected != target
  {
    hide Classify;
  }
}
