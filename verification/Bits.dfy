/** Fixed-width unsigned integers, and exclusive or on them. A shift right by k is a division by Pow2(k), and a
    mask of the k low bits is the remainder. */
module Bits {

  type uint8 = x: int | 0 <= x < 0x100
  type uint16 = x: int | 0 <= x < 0x1_0000
  type uint32 = x: int | 0 <= x < 0x1_0000_0000
  type uint64 = x: int | 0 <= x < 0x1_0000_0000_0000_0000
  type int64 = x: int | -0x8000_0000_0000_0000 <= x < 0x8000_0000_0000_0000

  function Pow2(k: nat): (r: nat)
    ensures r > 0
  {
    if k == 0 then 1 else 2 * Pow2(k - 1)
  }

  lemma {:induction false} Pow2Add(m: nat, n: nat)
    ensures Pow2(m + n) == Pow2(m) * Pow2(n)
    decreases m
  {
    if m > 0 {
      Pow2Add(m - 1, n);
      Doubles(Pow2(m - 1), Pow2(n));
    }
  }

  lemma Doubles(p: int, q: int)
    ensures 2 * (p * q) == (2 * p) * q
  {
  }

  lemma Widths()
    ensures Pow2(8) == 0x100
    ensures Pow2(16) == 0x1_0000
    ensures Pow2(31) == 0x8000_0000
    ensures Pow2(32) == 0x1_0000_0000
    ensures Pow2(64) == 0x1_0000_0000_0000_0000
  {
    assert Pow2(4) == 0x10;
    Pow2Add(4, 4);
    Pow2Add(8, 8);
    Pow2Add(16, 16);
    Pow2Add(1, 31);
    Pow2Add(32, 32);
  }

  /** Bitwise and. */
  function And(a: nat, b: nat): nat
    decreases a + b
  {
    if a == 0 || b == 0 then 0 else 2 * And(a / 2, b / 2) + (if a % 2 == 1 && b % 2 == 1 then 1 else 0)
  }

  /** Bitwise exclusive or. */
  function Xor(a: nat, b: nat): nat
    decreases a + b
  {
    if a == 0 && b == 0 then 0 else 2 * Xor(a / 2, b / 2) + (if a % 2 == b % 2 then 0 else 1)
  }

  lemma Digit(x: int, rest: int, bit: int)
    requires x == 2 * rest + bit && 0 <= bit < 2
    ensures x / 2 == rest && x % 2 == bit
  {
  }

  lemma XorBits(a: nat, b: nat)
    ensures Xor(a, b) % 2 == if a % 2 == b % 2 then 0 else 1
    ensures Xor(a, b) / 2 == Xor(a / 2, b / 2)
  {
    Digit(Xor(a, b), Xor(a / 2, b / 2), if a % 2 == b % 2 then 0 else 1);
  }

  /** A number is its two halves: the way every induction below ends. */
  lemma SameBits(x: int, y: int)
    requires x / 2 == y / 2 && x % 2 == y % 2
    ensures x == y
  {
  }

  lemma {:induction false} XorZero(a: nat)
    ensures Xor(a, 0) == a
  {
    if a > 0 {
      XorZero(a / 2);
    }
  }

  lemma {:induction false} XorCommutes(a: nat, b: nat)
    ensures Xor(a, b) == Xor(b, a)
    decreases a + b
  {
    if a > 0 || b > 0 {
      XorCommutes(a / 2, b / 2);
    }
  }

  lemma {:induction false} XorAssociates(a: nat, b: nat, c: nat)
    ensures Xor(Xor(a, b), c) == Xor(a, Xor(b, c))
    decreases a + b + c
  {
    if a > 0 || b > 0 || c > 0 {
      XorBits(a, b);
      XorBits(b, c);
      XorAssociates(a / 2, b / 2, c / 2);
      XorAssociatesStep(a, b, c, Xor(a, b), Xor(b, c));
    }
  }

  lemma XorAssociatesStep(a: nat, b: nat, c: nat, ab: nat, bc: nat)
    requires ab % 2 == (if a % 2 == b % 2 then 0 else 1)
    requires bc % 2 == (if b % 2 == c % 2 then 0 else 1)
    requires Xor(ab / 2, c / 2) == Xor(a / 2, bc / 2)
    ensures Xor(ab, c) == Xor(a, bc)
  {
    XorBits(ab, c);
    XorBits(a, bc);
    SameBits(Xor(ab, c), Xor(a, bc));
  }

  lemma {:induction false} XorSelf(a: nat)
    ensures Xor(a, a) == 0
  {
    if a > 0 {
      XorSelf(a / 2);
    }
  }

  lemma XorCancels(a: nat, b: nat, c: nat)
    requires Xor(a, c) == Xor(b, c)
    ensures a == b
  {
    XorUndone(a, c);
    XorUndone(b, c);
  }

  lemma XorUndone(a: nat, c: nat)
    ensures Xor(Xor(a, c), c) == a
  {
    XorAssociates(a, c, c);
    XorSelf(c);
    XorZero(a);
  }

  lemma XorSwaps(a: nat, b: nat, c: nat)
    ensures Xor(Xor(a, b), c) == Xor(Xor(a, c), b)
  {
    XorAssociates(a, b, c);
    XorAssociates(a, c, b);
    XorCommutes(b, c);
  }

  lemma {:induction false} XorBound(a: nat, b: nat, k: nat)
    requires a < Pow2(k) && b < Pow2(k)
    ensures Xor(a, b) < Pow2(k)
    decreases k
  {
    if k > 0 {
      XorBound(a / 2, b / 2, k - 1);
    }
  }

  /** The top bit of b survives an exclusive or with a smaller number. */
  lemma {:induction false} XorKeepsTop(a: nat, b: nat, k: nat)
    requires a < Pow2(k) <= b < 2 * Pow2(k)
    ensures Pow2(k) <= Xor(a, b)
    decreases k
  {
    if k > 0 {
      XorKeepsTop(a / 2, b / 2, k - 1);
    } else {
      assert b == 1 && a == 0;
    }
  }

  /** Numbers with no bit in common add without carry. */
  lemma {:induction false} XorOfParts(low: nat, high: nat, k: nat)
    requires low < Pow2(k)
    ensures Xor(low, high * Pow2(k)) == low + high * Pow2(k)
    decreases k
  {
    if k == 0 {
      XorCommutes(0, high);
      XorZero(high);
    } else {
      var shifted := high * Pow2(k - 1);
      assert high * Pow2(k) == 2 * shifted;
      XorOfParts(low / 2, high, k - 1);
      Digit(2 * shifted, shifted, 0);
      XorBits(low, 2 * shifted);
      Digit(low + 2 * shifted, low / 2 + shifted, low % 2);
      SameBits(Xor(low, 2 * shifted), low + 2 * shifted);
    }
  }
}
