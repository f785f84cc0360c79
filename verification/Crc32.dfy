/** CRC-32/ISO-HDLC of storage_record.c: the table-driven loop, and the bit-serial register it must equal
    (section 8 of RFC 1952). */
module Crc32 {
  import opened Bits
  import opened Iteration
  import LittleEndian

  const POLY_REFLECTED: uint32 := 0xEDB8_8320
  const INIT: uint32 := 0xFFFF_FFFF
  const XOROUT: uint32 := 0xFFFF_FFFF
  const BITS_PER_BYTE: nat := 8

  function Xor32(a: uint32, b: uint32): uint32 {
    Widths();
    XorBound(a, b, 32);
    Xor(a, b)
  }

  // ---------- The bit-serial register ----------

  /** One clock of the reflected register: the incoming bit is compared with the outgoing one. */
  function ClockBit(crc: uint32, bit: uint32): uint32 {
    if crc % 2 != bit then Xor32(crc / 2, POLY_REFLECTED) else crc / 2
  }

  /** Clock in the n low bits of b, least significant first. */
  function ClockBits(crc: uint32, b: uint32, n: nat): uint32
    decreases n
  {
    if n == 0 then crc else ClockBits(ClockBit(crc, b % 2), b / 2, n - 1)
  }

  function ClockByte(crc: uint32, b: uint8): uint32 {
    ClockBits(crc, b, BITS_PER_BYTE)
  }

  function Checksum(message: seq<uint8>): uint32 {
    Xor32(Fold(ClockByte, INIT, message), XOROUT)
  }

  // ---------- The register without input ----------

  function Shift(crc: uint32): uint32 {
    if crc % 2 == 1 then Xor32(crc / 2, POLY_REFLECTED) else crc / 2
  }

  /** The polynomial's top bit is set, so the top bit of the result tells which branch Shift took. */
  function Unshift(crc: uint32): uint32 {
    if crc >= 0x8000_0000 then (2 * Xor32(crc, POLY_REFLECTED) + 1) % 0x1_0000_0000 else 2 * crc
  }

  function Half(x: uint32): uint32 { x / 2 }

  predicate Even(x: uint32) { x % 2 == 0 }

  lemma UnshiftShift(x: uint32)
    ensures Unshift(Shift(x)) == x
  {
    if x % 2 == 1 {
      Widths();
      XorKeepsTop(x / 2, POLY_REFLECTED, 31);
      XorUndone(x / 2, POLY_REFLECTED);
    }
  }

  lemma ShiftNInjective(x: uint32, y: uint32, n: nat)
    requires Iterate<uint32>(Shift, x, n) == Iterate<uint32>(Shift, y, n)
    ensures x == y
  {
    forall a: uint32
      ensures Unshift(Shift(a)) == a
    {
      UnshiftShift(a);
    }
    IterateInjective<uint32>(Shift, Unshift, x, y, n);
  }

  lemma ShiftEvenXor(p: uint32, q: uint32)
    requires Even(q)
    ensures Shift(Xor32(p, q)) == Xor32(Shift(p), Half(q))
  {
    XorBits(p, q);
    XorSwaps(p / 2, q / 2, POLY_REFLECTED);
  }

  /** An even part passes through the register unfed: n clocks only move it right. */
  lemma ShiftSplits(p: uint32, q: uint32, n: nat)
    requires AllAlong<uint32>(Even, Half, q, n)
    ensures Iterate<uint32>(Shift, Xor32(p, q), n) == Xor32(Iterate<uint32>(Shift, p, n), Iterate<uint32>(Half, q, n))
  {
    forall a: uint32, b: uint32 | Even(b)
      ensures Shift(Xor32(a, b)) == Xor32(Shift(a), Half(b))
    {
      ShiftEvenXor(a, b);
    }
    IterateSplits<uint32>(Shift, Half, Xor32, Even, p, q, n);
  }

  lemma {:induction false} LowBitsClear(rest: nat, k: nat, x: uint32)
    requires x == rest * Pow2(k)
    ensures AllAlong<uint32>(Even, Half, x, k) && Iterate<uint32>(Half, x, k) == rest
    decreases k
  {
    if k > 0 {
      assert x == 2 * (rest * Pow2(k - 1));
      LowBitsClear(rest, k - 1, x / 2);
    }
  }

  /** Clocking k times a register whose upper part is rest: rest only moves down. */
  lemma RegisterSplits(low: uint32, rest: nat, k: nat, high: uint32)
    requires high == rest * Pow2(k)
    ensures Iterate<uint32>(Shift, Xor32(low, high), k) == Xor32(Iterate<uint32>(Shift, low, k), rest)
  {
    LowBitsClear(rest, k, high);
    ShiftSplits(low, high, k);
  }

  // ---------- One byte at a time ----------

  lemma ClockBitIsShift(crc: uint32, b: uint32)
    ensures Shift(Xor32(crc, b)) == Xor32(ClockBit(crc, b % 2), b / 2)
  {
    XorBits(crc, b);
    XorSwaps(crc / 2, b / 2, POLY_REFLECTED);
  }

  /** Feeding the bits one by one is the same as adding the byte first and then clocking n times. */
  lemma {:induction false} ClockBitsIsShift(crc: uint32, b: uint32, n: nat)
    requires b < Pow2(n)
    ensures ClockBits(crc, b, n) == Iterate<uint32>(Shift, Xor32(crc, b), n)
    decreases n
  {
    if n == 0 {
      XorZero(crc);
    } else {
      ClockBitIsShift(crc, b);
      ClockBitsIsShift(ClockBit(crc, b % 2), b / 2, n - 1);
    }
  }

  lemma ClockByteIsShift(crc: uint32, b: uint8)
    ensures ClockByte(crc, b) == Iterate<uint32>(Shift, Xor32(crc, b), BITS_PER_BYTE)
  {
    Widths();
    ClockBitsIsShift(crc, b, BITS_PER_BYTE);
  }

  /** The low byte of the register picks a table entry; the other three bytes move down. */
  lemma TableStep(x: uint32)
    ensures Iterate<uint32>(Shift, x, BITS_PER_BYTE)
         == Xor32(Iterate<uint32>(Shift, x % 0x100, BITS_PER_BYTE), x / 0x100)
  {
    Widths();
    XorOfParts(x % 0x100, x / 0x100, BITS_PER_BYTE);
    RegisterSplits(x % 0x100, x / 0x100, BITS_PER_BYTE, x / 0x100 * 0x100);
  }

  predicate AnyWord(x: uint32) { true }

  lemma HalvedEightTimes(x: uint32)
    ensures Iterate<uint32>(Half, x, 8) == x / 0x100
  {
    Iterate8<uint32>(Half, x);
  }

  lemma ByteKeepsHigh(crc: uint32, b: uint8)
    ensures Xor32(crc, b) / 0x100 == crc / 0x100
  {
    forall x: uint32, y: uint32
      ensures Half(Xor32(x, y)) == Xor32(Half(x), Half(y))
    {
      XorBits(x, y);
    }
    AllAlongAlways<uint32>(AnyWord, Half, b, BITS_PER_BYTE);
    IterateSplits<uint32>(Half, Half, Xor32, AnyWord, crc, b, BITS_PER_BYTE);
    HalvedEightTimes(Xor32(crc, b));
    HalvedEightTimes(crc);
    HalvedEightTimes(b);
    XorZero(crc / 0x100);
  }

  // ---------- The table loop ----------

  ghost function Entry(i: nat): uint32 {
    if i < 0x100 then Iterate<uint32>(Shift, i, BITS_PER_BYTE) else 0
  }

  ghost predicate IsTable(table: seq<uint32>) {
    |table| == 256 && Tabulates(Entry, table)
  }

  method TableEntry(i: uint8) returns (crc: uint32)
    ensures crc == Entry(i)
  {
    crc := i;
    assert Entry(i) == Iterate<uint32>(Shift, i, BITS_PER_BYTE);
    for j := 0 to BITS_PER_BYTE
      invariant Iterate<uint32>(Shift, crc, BITS_PER_BYTE - j) == Iterate<uint32>(Shift, i, BITS_PER_BYTE)
    {
      if crc % 2 == 1 {
        crc := Xor32(crc / 2, POLY_REFLECTED);
      } else {
        crc := crc / 2;
      }
    }
  }

  method BuildTable(table: array<uint32>)
    requires table.Length == 256
    modifies table
    ensures IsTable(table[..])
  {
    for i := 0 to 256
      invariant Tabulates(Entry, table[..i])
    {
      var entry := TableEntry(i);
      table[i] := entry;
      TabulatesOneMore(Entry, table[..i], entry);
      assert table[..i + 1] == table[..i] + [entry];
    }
    assert table[..256] == table[..];
  }

  /** One turn of the table loop clocks in one byte. */
  lemma TableLookup(table: seq<uint32>, crc: uint32, b: uint8)
    requires IsTable(table)
    ensures Xor32(table[Xor32(crc, b) % 0x100], crc / 0x100) == ClockByte(crc, b)
  {
    var x := Xor32(crc, b);
    var low := x % 0x100;
    assert table[low] == Iterate<uint32>(Shift, low, BITS_PER_BYTE);
    ClockByteIsShift(crc, b);
    TableStep(x);
    ByteKeepsHigh(crc, b);
  }

  /** The table-driven loop computes the bit-serial checksum of every message. */
  method Crc32Reflected(data: seq<uint8>) returns (r: uint32)
    ensures r == Checksum(data)
  {
    var table := new uint32[256];
    BuildTable(table);
    var crc := INIT;
    for i := 0 to |data|
      invariant IsTable(table[..])
      invariant crc == Fold(ClockByte, INIT, data[..i])
    {
      TableLookup(table[..], crc, data[i]);
      crc := Xor32(table[Xor32(crc, data[i]) % 0x100], crc / 0x100);
      assert data[..i + 1][..i] == data[..i];
    }
    assert data[..|data|] == data;
    r := Xor32(crc, XOROUT);
  }

  // ---------- What the checksum detects ----------

  /** For a fixed byte the register step is injective: different states never merge. */
  lemma ClockByteInjective(c1: uint32, c2: uint32, b: uint8)
    requires ClockByte(c1, b) == ClockByte(c2, b)
    ensures c1 == c2
  {
    ClockByteIsShift(c1, b);
    ClockByteIsShift(c2, b);
    ShiftNInjective(Xor32(c1, b), Xor32(c2, b), BITS_PER_BYTE);
    XorCancels(c1, c2, b);
  }

  /** Up to four bytes enter the register as one word: add the word, then clock it through. */
  lemma {:induction false} ClockWord(crc: uint32, bytes: seq<uint8>, word: uint32)
    requires |bytes| <= 4 && word == LittleEndian.Value(bytes)
    ensures Fold(ClockByte, crc, bytes) == Iterate<uint32>(Shift, Xor32(crc, word), 8 * |bytes|)
    decreases |bytes|
  {
    hide *;
    if bytes == [] {
      ClockNothing(crc, word);
    } else {
      var front, b := bytes[..|bytes| - 1], bytes[|bytes| - 1];
      assert bytes == front + [b];
      LittleEndian.ValueFits32(front);
      ClockWord(crc, front, LittleEndian.Value(front));
      ClockWordSnoc(crc, front, LittleEndian.Value(front), b, word);
    }
  }

  lemma ClockNothing(crc: uint32, word: uint32)
    requires word == LittleEndian.Value([])
    ensures Fold(ClockByte, crc, []) == Iterate<uint32>(Shift, Xor32(crc, word), 0)
  {
    XorZero(crc);
  }

  lemma ClockWordSnoc(crc: uint32, front: seq<uint8>, low: uint32, b: uint8, word: uint32)
    requires low == LittleEndian.Value(front) && word == LittleEndian.Value(front + [b])
    requires Fold(ClockByte, crc, front) == Iterate<uint32>(Shift, Xor32(crc, low), 8 * |front|)
    ensures Fold(ClockByte, crc, front + [b]) == Iterate<uint32>(Shift, Xor32(crc, word), 8 * |front| + 8)
  {
    LittleEndian.ValueOfSnoc(front, b);
    LittleEndian.ValueBound(front);
    hide *;
    ClockWordStep(crc, low, b, 8 * |front|, word);
    FoldOne<uint32, uint8>(ClockByte, crc, front, b);
  }

  lemma ClockWordStep(crc: uint32, low: uint32, b: uint8, k: nat, word: uint32)
    requires low < Pow2(k) && word == low + b * Pow2(k)
    ensures Iterate<uint32>(Shift, Xor32(crc, word), k + 8)
         == ClockByte(Iterate<uint32>(Shift, Xor32(crc, low), k), b)
  {
    WordParts(crc, low, b, k, word);
    RegisterSplits(Xor32(crc, low), b, k, b * Pow2(k));
    IterateAdd<uint32>(Shift, Xor32(crc, word), k, BITS_PER_BYTE);
    ClockByteIsShift(Iterate<uint32>(Shift, Xor32(crc, low), k), b);
  }

  lemma WordParts(crc: uint32, low: uint32, b: uint8, k: nat, word: uint32)
    requires low < Pow2(k) && word == low + b * Pow2(k)
    ensures Xor32(crc, word) == Xor(Xor32(crc, low), b * Pow2(k))
  {
    XorOfParts(low, b, k);
    XorAssociates(crc, low, b * Pow2(k));
  }

  /** Two messages that differ only inside a window of at most four bytes have different checksums. */
  lemma BurstDetected(front: seq<uint8>, x: seq<uint8>, y: seq<uint8>, back: seq<uint8>)
    requires |x| == |y| <= 4
    requires Checksum(front + x + back) == Checksum(front + y + back)
    ensures x == y
  {
    var start := Fold(ClockByte, INIT, front);
    var cx, cy := Fold(ClockByte, start, x), Fold(ClockByte, start, y);
    FoldAppend(ClockByte, INIT, front, x);
    FoldAppend(ClockByte, INIT, front, y);
    FoldAppend(ClockByte, INIT, front + x, back);
    FoldAppend(ClockByte, INIT, front + y, back);
    XorCancels(Fold(ClockByte, cx, back), Fold(ClockByte, cy, back), XOROUT);
    forall a: uint32, b: uint32, m: uint8 | ClockByte(a, m) == ClockByte(b, m)
      ensures a == b
    {
      ClockByteInjective(a, b, m);
    }
    FoldInjective<uint32, uint8>(ClockByte, cx, cy, back);
    WordDetected(start, x, y);
  }

  lemma WordDetected(crc: uint32, x: seq<uint8>, y: seq<uint8>)
    requires |x| == |y| <= 4
    requires Fold(ClockByte, crc, x) == Fold(ClockByte, crc, y)
    ensures x == y
  {
    LittleEndian.ValueFits32(x);
    LittleEndian.ValueFits32(y);
    var wx: uint32, wy: uint32 := LittleEndian.Value(x), LittleEndian.Value(y);
    ClockWord(crc, x, wx);
    ClockWord(crc, y, wy);
    ShiftNInjective(Xor32(crc, wx), Xor32(crc, wy), 8 * |x|);
    XorCommutes(crc, wx);
    XorCommutes(crc, wy);
    XorCancels(wx, wy, crc);
    LittleEndian.EncodedOfValue(x);
    LittleEndian.EncodedOfValue(y);
  }
}
