/** Little-endian integers on media: le_read* and le_write* of storage_record. */
module LittleEndian {
  import opened Bits

  const U16: nat := 2
  const U32: nat := 4
  const U64: nat := 8

  /** The value of a byte string, least significant byte first. */
  function Value(bytes: seq<uint8>): (v: nat)
  {
    if bytes == [] then 0 else bytes[0] + 0x100 * Value(bytes[1..])
  }

  /** The n low bytes of v, least significant first. */
  function Encoded(v: nat, n: nat): (bytes: seq<uint8>)
    ensures |bytes| == n
    decreases n
  {
    if n == 0 then [] else [v % 0x100] + Encoded(v / 0x100, n - 1)
  }

  function Read16(buf: seq<uint8>, at: nat): uint16
    requires at + 2 <= |buf|
  {
    buf[at] as int + 0x100 * buf[at + 1] as int
  }

  function Read32(buf: seq<uint8>, at: nat): uint32
    requires at + 4 <= |buf|
  {
    buf[at] as int + 0x100 * buf[at + 1] as int + 0x1_0000 * buf[at + 2] as int + 0x100_0000 * buf[at + 3] as int
  }

  lemma Read16IsValue(buf: seq<uint8>, at: nat)
    requires at + 2 <= |buf|
    ensures Read16(buf, at) == Value(buf[at..at + 2])
  {
    var b := buf[at..at + 2];
    assert Value(b[1..]) == b[1] + 0x100 * Value(b[1..][1..]);
  }

  lemma Read32IsValue(buf: seq<uint8>, at: nat)
    requires at + 4 <= |buf|
    ensures Read32(buf, at) == Value(buf[at..at + 4])
  {
    var b := buf[at..at + 4];
    Read16IsValue(b[2..], 0);
    assert b[2..][0..2] == b[2..];
    assert b[1..][1..] == b[2..];
    assert Value(b) == b[0] + 0x100 * Value(b[1..]);
    assert Value(b[1..]) == b[1] + 0x100 * Value(b[2..]);
  }

  /** le_read64 gathers the bytes from the most significant down. */
  method Read64(buf: seq<uint8>, at: nat) returns (v: uint64)
    requires at + 8 <= |buf|
    ensures v == Value(buf[at..at + 8])
  {
    var acc: int := 0;
    var i := 8;
    while i > 0
      invariant 0 <= i <= 8
      invariant 0 <= acc == Value(buf[at + i..at + 8])
    {
      i := i - 1;
      acc := 0x100 * acc + buf[at + i] as int;
      assert buf[at + i..at + 8][1..] == buf[at + i + 1..at + 8];
    }
    Widths();
    ValueBound(buf[at..at + 8]);
    v := acc;
  }

  lemma {:induction false} ValueBound(bytes: seq<uint8>)
    ensures Value(bytes) < Pow2(8 * |bytes|)
  {
    if bytes != [] {
      ValueBound(bytes[1..]);
      Widths();
      Pow2Add(8, 8 * |bytes[1..]|);
    }
  }

  lemma ValueFits32(bytes: seq<uint8>)
    requires |bytes| <= 4
    ensures Value(bytes) < 0x1_0000_0000
  {
    ValueBound(bytes);
    Pow2Add(8 * |bytes|, 32 - 8 * |bytes|);
    Widths();
  }

  lemma ValueFits64(bytes: seq<uint8>)
    requires |bytes| == 8
    ensures Value(bytes) < 0x1_0000_0000_0000_0000
  {
    ValueBound(bytes);
    Widths();
  }

  /** Writing an n-byte integer and reading it back. */
  lemma {:induction false} ValueOfEncoded(v: nat, n: nat)
    requires v < Pow2(8 * n)
    ensures Value(Encoded(v, n)) == v
    decreases n
  {
    if n > 0 {
      Widths();
      Pow2Add(8, 8 * (n - 1));
      ValueOfEncoded(v / 0x100, n - 1);
    }
  }

  /** Reading an integer and writing it back: an encoding holds no other bytes. */
  lemma {:induction false} EncodedOfValue(bytes: seq<uint8>)
    ensures Encoded(Value(bytes), |bytes|) == bytes
  {
    if bytes != [] {
      EncodedOfValue(bytes[1..]);
      assert Value(bytes) % 0x100 == bytes[0] && Value(bytes) / 0x100 == Value(bytes[1..]);
    }
  }

  /** An n-byte field that holds an encoding reads back as the encoded value. */
  lemma EncodedFields()
    ensures forall v: uint16 :: Value(Encoded(v, U16)) == v
    ensures forall v: uint32 :: Value(Encoded(v, U32)) == v
    ensures forall v: uint64 :: Value(Encoded(v, U64)) == v
  {
    Widths();
    forall v: uint16
      ensures Value(Encoded(v, U16)) == v
    {
      ValueOfEncoded(v, U16);
    }
    forall v: uint32
      ensures Value(Encoded(v, U32)) == v
    {
      ValueOfEncoded(v, U32);
    }
    forall v: uint64
      ensures Value(Encoded(v, U64)) == v
    {
      ValueOfEncoded(v, U64);
    }
  }

  lemma Scale(b: int, p: int)
    ensures 0x100 * (b * p) == b * (0x100 * p)
  {
  }

  lemma {:induction false} ValueOfSnoc(bytes: seq<uint8>, b: uint8)
    ensures Value(bytes + [b]) == Value(bytes) + b * Pow2(8 * |bytes|)
  {
    if bytes == [] {
      assert Value([b]) == b;
      assert bytes + [b] == [b];
    } else {
      ValueOfSnoc(bytes[1..], b);
      Widths();
      Pow2Add(8, 8 * |bytes[1..]|);
      Scale(b, Pow2(8 * |bytes[1..]|));
      assert (bytes + [b])[1..] == bytes[1..] + [b];
    }
  }
}
