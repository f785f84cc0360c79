/** Checked 64-bit arithmetic, rounding and table interpolation: checked_math.c and interpolation.c. */
module Interpolation {
  import opened Bits
  import opened StorageRecord

  const INT64_MIN: int := -0x8000_0000_0000_0000
  const INT64_MAX: int := 0x7FFF_FFFF_FFFF_FFFF

  predicate Fits(x: int) {
    INT64_MIN <= x <= INT64_MAX
  }

  // ---------- Checked arithmetic ----------

  /** Division as in C: towards zero. */
  function Quotient(a: int, b: int): int
    requires b != 0
  {
    if (a >= 0) == (b > 0) then Magnitude(a) / Magnitude(b) else -(Magnitude(a) / Magnitude(b))
  }

  function Magnitude(a: int): (m: nat)
    ensures a != 0 ==> m > 0
  {
    if a < 0 then -a else a
  }

  /** checked_add_i64 and checked_sub_i64. */
  method CheckedAdd(a: int64, b: int64) returns (r: Option<int>)
    ensures r == if Fits(a + b) then Some(a + b) else None
  {
    if (b > 0 && a > INT64_MAX - b) || (b < 0 && a < INT64_MIN - b) {
      return None;
    }
    return Some(a + b);
  }

  method CheckedSub(a: int64, b: int64) returns (r: Option<int>)
    ensures r == if Fits(a - b) then Some(a - b) else None
  {
    if (b > 0 && a < INT64_MIN + b) || (b < 0 && a > INT64_MAX + b) {
      return None;
    }
    return Some(a - b);
  }

  /** p * q exceeds m exactly when p exceeds m / q. */
  lemma ProductExceeds(p: nat, q: nat, m: nat)
    requires q > 0
    ensures p * q > m <==> p > m / q
  {
    var d := m / q;
    assert m == d * q + m % q;
    if p > d {
      assert p * q >= (d + 1) * q;
    } else {
      assert p * q <= d * q;
    }
  }

  /** checked_mul_i64: a division of the bound decides, in each quadrant. */
  method CheckedMul(a: int64, b: int64) returns (r: Option<int>)
    ensures r == if Fits(a * b) then Some(a * b) else None
  {
    if a == 0 || b == 0 {
      return Some(0);
    }
    ProductExceeds(Magnitude(a), Magnitude(b), INT64_MAX);
    ProductExceeds(Magnitude(b), Magnitude(a), -INT64_MIN);
    ProductExceeds(Magnitude(a), Magnitude(b), -INT64_MIN);
    Signs(a, b);
    if (a == INT64_MIN && b == -1) || (b == INT64_MIN && a == -1) {
      return None;
    }
    if (a > 0 && b > 0 && a > Quotient(INT64_MAX, b)) || (a > 0 && b < 0 && b < Quotient(INT64_MIN, a))
       || (a < 0 && b > 0 && a < Quotient(INT64_MIN, b)) || (a < 0 && b < 0 && a < Quotient(INT64_MAX, b)) {
      return None;
    }
    return Some(a * b);
  }

  lemma Signs(a: int, b: int)
    requires a != 0 && b != 0
    ensures a * b == if (a > 0) == (b > 0) then Magnitude(a) * Magnitude(b) else -(Magnitude(a) * Magnitude(b))
    ensures Magnitude(a) * Magnitude(b) == Magnitude(b) * Magnitude(a)
  {
  }

  // ---------- Rounding ----------

  /** round_i64 by a positive divisor. The remainder has the sign of the value, as in C. */
  function Round(value: int, divisor: nat): int
    requires divisor > 0
  {
    var (n, r) := (Magnitude(value) / divisor, Magnitude(value) % divisor);
    var q := if value >= 0 then n else if r == 0 then -n else -n - 1;
    if r > divisor / 2 then q + 1
    else if r < divisor / 2 then q
    else if q % 2 == 0 then q
    else q + 1
  }

  /** round_i64 by any divisor. */
  function RoundBy(value: int, divisor: int): int {
    if divisor == 0 then value
    else if divisor < 0 then Round(-value, -divisor)
    else Round(value, divisor)
  }

  /** round_i64, with its sign changes, quotient and remainder. */
  method RoundTowards(dividend: int, over: int) returns (rounded: int)
    ensures rounded == RoundBy(dividend, over)
  {
    if over == 0 {
      return dividend;
    }
    var value, divisor := dividend, over;
    if divisor < 0 {
      divisor, value := -divisor, -value;
    }
    var half := divisor / 2;
    var quotient := Quotient(value, divisor);
    var remainder := value - quotient * divisor;
    TruncatedParts(value, divisor);
    if remainder < 0 {
      remainder := -remainder;
      quotient := quotient - 1;
    }
    if remainder > half {
      return quotient + 1;
    }
    if remainder < half {
      return quotient;
    }
    return if quotient % 2 == 0 then quotient else quotient + 1;
  }

  lemma TruncatedParts(value: int, divisor: nat)
    requires divisor > 0
    ensures var r := Magnitude(value) % divisor;
      value - Quotient(value, divisor) * divisor == if value >= 0 then r else -r
  {
    var n := Magnitude(value) / divisor;
    assert Magnitude(value) == n * divisor + Magnitude(value) % divisor;
    assert (-n) * divisor == -(n * divisor);
  }

  /** When the result is a nearest integer. For a value that is not negative: unless an odd quotient meets half of an odd
      divisor, rounded down. For a negative one that does not divide: only at that half, and not for an odd quotient
      and an odd divisor. */
  lemma RoundIsNearestIff(value: int, divisor: nat)
    requires divisor > 0
    ensures var (n, r) := (Magnitude(value) / divisor, Magnitude(value) % divisor);
      0 <= 2 * (Round(value, divisor) * divisor - value) + divisor <= 2 * divisor
      <==> if value >= 0 || r == 0 then !(divisor % 2 == 1 && r == divisor / 2 && n % 2 == 1)
           else r == divisor / 2 && (divisor % 2 == 0 || n % 2 == 0)
  {
    RoundError(value, divisor);
    var (n, r) := (Magnitude(value) / divisor, Magnitude(value) % divisor);
    assert 0 <= r < divisor;
    var (round, error) := (Round(value, divisor), Round(value, divisor) * divisor - value);
    assert 2 * (divisor / 2) == if divisor % 2 == 0 then divisor else divisor - 1;
  }

  /** How far the result, times the divisor, is from the value. */
  lemma RoundError(value: int, divisor: nat)
    requires divisor > 0
    ensures var (n, r) := (Magnitude(value) / divisor, Magnitude(value) % divisor);
      var (round, error) := (Round(value, divisor), Round(value, divisor) * divisor - value);
      if value >= 0 then (round == n && error == -r) || (round == n + 1 && error == divisor - r)
      else if r == 0 then (round == -n && error == 0) || (round == -n + 1 && error == divisor)
      else (round == -n - 1 && error == r - divisor) || (round == -n && error == r)
  {
    var (n, r) := (Magnitude(value) / divisor, Magnitude(value) % divisor);
    assert Magnitude(value) == n * divisor + r;
    assert (n + 1) * divisor == n * divisor + divisor;
    assert (-n) * divisor == -(n * divisor) && (-n - 1) * divisor == -(n * divisor) - divisor;
    assert (-n + 1) * divisor == -(n * divisor) + divisor;
    var round := Round(value, divisor);
    assert round == n || round == n + 1 || round == -n || round == -n - 1 || round == -n + 1;
  }

  /** So an odd number divided by one is not itself. */
  lemma RoundByOne(value: int)
    ensures Round(value, 1) == if value % 2 == 0 then value else value + 1
  {
  }

  lemma RoundMonotone(v: nat, w: nat, divisor: nat)
    requires divisor > 0 && v <= w
    ensures Round(v, divisor) <= Round(w, divisor)
  {
    DivisionMonotone(v, w, divisor);
  }

  lemma DivisionMonotone(v: nat, w: nat, divisor: nat)
    requires divisor > 0 && v <= w
    ensures v / divisor < w / divisor || (v / divisor == w / divisor && v % divisor <= w % divisor)
  {
    var (p, q) := (v / divisor, w / divisor);
    assert v == p * divisor + v % divisor && w == q * divisor + w % divisor;
    Scales(q + 1, p, divisor);
    assert (q + 1) * divisor == q * divisor + divisor;
    assert p <= q;
  }

  lemma Scales(a: nat, b: nat, c: nat)
    ensures a <= b ==> a * c <= b * c
  {
  }

  /** Less than a whole number of divisors rounds to at most that number. */
  lemma RoundBelow(value: nat, divisor: nat, n: nat)
    requires divisor > 0 && value < n * divisor
    ensures Round(value, divisor) <= n
  {
    var q := value / divisor;
    assert value == q * divisor + value % divisor;
    Scales(n, q, divisor);
  }

  // ---------- Interpolation ----------

  predicate Increasing(t: seq<int64>) {
    forall i, j :: 0 <= i < j < |t| ==> t[i] < t[j]
  }

  /** table_is_monotonic. */
  method TableIsMonotonic(xs: seq<int64>, ys: seq<int64>) returns (ok: bool)
    requires |xs| == |ys|
    ensures ok <==> |xs| >= 2 && Increasing(xs) && Increasing(ys)
  {
    if |xs| < 2 {
      return false;
    }
    var i := 1;
    while i < |xs|
      invariant 1 <= i <= |xs| && Increasing(xs[..i]) && Increasing(ys[..i])
    {
      if xs[i] <= xs[i - 1] {
        assert !(xs[i - 1] < xs[i]);
        return false;
      }
      if ys[i] <= ys[i - 1] {
        assert !(ys[i - 1] < ys[i]);
        return false;
      }
      assert xs[..i + 1] == xs[..i] + [xs[i]] && ys[..i + 1] == ys[..i] + [ys[i]];
      assert xs[..i][i - 1] == xs[i - 1] && ys[..i][i - 1] == ys[i - 1];
      i := i + 1;
    }
    assert xs[..i] == xs && ys[..i] == ys;
    return true;
  }

  /** The segment that the binary search between lo and hi ends in. */
  function Search(x: int64, xs: seq<int64>, lo: nat, hi: nat): (at: nat)
    requires lo < hi < |xs|
    ensures lo <= at < hi
    decreases hi - lo
  {
    if hi - lo <= 1 then lo
    else
      var mid := lo + (hi - lo) / 2;
      if x < xs[mid] then Search(x, xs, lo, mid) else Search(x, xs, mid, hi)
  }

  /** The difference of two 64-bit numbers as the machine computes it. */
  function Difference(a: int64, b: int64): int64 {
    var d := a - b;
    if d > INT64_MAX then d - 0x1_0000_0000_0000_0000
    else if d < INT64_MIN then d + 0x1_0000_0000_0000_0000
    else d
  }

  /** interpolate_i64 within a segment: every step that does not fit in 64 bits fails. */
  function InSegment(x: int64, x0: int64, x1: int64, y0: int64, y1: int64): Option<int> {
    var dx := Difference(x1, x0);
    if dx <= 0 || !Fits(x - x0) || !Fits(y1 - y0) || !Fits((x - x0) * (y1 - y0)) then None
    else Some(y0 + Round((x - x0) * (y1 - y0), dx))
  }

  lemma NonNegative(a: nat, b: nat)
    ensures a * b >= 0
  {
  }

  /** interpolate_i64. */
  function Interpolate(x: int64, xs: seq<int64>, ys: seq<int64>): Option<int>
    requires |xs| == |ys|
  {
    if |xs| < 2 then None
    else if x <= xs[0] then Some(ys[0])
    else if x >= xs[|xs| - 1] then Some(ys[|xs| - 1])
    else
      var lo := Search(x, xs, 0, |xs| - 1);
      InSegment(x, xs[lo], xs[lo + 1], ys[lo], ys[lo + 1])
  }

  lemma {:induction false} SearchFinds(x: int64, xs: seq<int64>, lo: nat, hi: nat)
    requires Increasing(xs) && lo < hi < |xs| && xs[lo] <= x < xs[hi]
    ensures var at := Search(x, xs, lo, hi); xs[at] <= x < xs[at + 1]
    decreases hi - lo
  {
    if hi - lo > 1 {
      var mid := lo + (hi - lo) / 2;
      if x < xs[mid] {
        SearchFinds(x, xs, lo, mid);
      } else {
        SearchFinds(x, xs, mid, hi);
      }
    }
  }

  /** The binary search of interpolate_i64. */
  method FindSegment(x: int64, xs: seq<int64>) returns (at: nat)
    requires |xs| >= 2
    ensures at == Search(x, xs, 0, |xs| - 1) && at + 1 < |xs|
  {
    var lo, hi := 0, |xs| - 1;
    while hi - lo > 1
      invariant 0 <= lo < hi < |xs| && Search(x, xs, lo, hi) == Search(x, xs, 0, |xs| - 1)
    {
      var mid := lo + (hi - lo) / 2;
      if x < xs[mid] {
        hi := mid;
      } else {
        lo := mid;
      }
    }
    return lo;
  }

  /** The arithmetic of interpolate_i64, each step checked. */
  method SegmentValue(x: int64, x0: int64, x1: int64, y0: int64, y1: int64) returns (y: Option<int>)
    ensures y == InSegment(x, x0, x1, y0, y1)
  {
    hide Round;
    var dx := Difference(x1, x0);
    if dx <= 0 {
      return None;
    }
    var xOffset := CheckedSub(x, x0);
    if xOffset.None? {
      return None;
    }
    var yRange := CheckedSub(y1, y0);
    if yRange.None? {
      return None;
    }
    var num := CheckedMul(xOffset.value, yRange.value);
    if num.None? {
      return None;
    }
    var rounded := RoundTowards(num.value, dx);
    return Some(y0 + rounded);
  }

  /** interpolate_i64. */
  method InterpolateInTable(x: int64, xs: seq<int64>, ys: seq<int64>) returns (y: Option<int>)
    requires |xs| == |ys|
    ensures y == Interpolate(x, xs, ys)
  {
    hide InSegment, Search;
    if |xs| < 2 {
      return None;
    }
    if x <= xs[0] {
      return Some(ys[0]);
    }
    if x >= xs[|xs| - 1] {
      return Some(ys[|xs| - 1]);
    }
    var lo := FindSegment(x, xs);
    y := SegmentValue(x, xs[lo], xs[lo + 1], ys[lo], ys[lo + 1]);
  }

  /** Within a segment the result lies between its end values, so it fits; it starts at the first of them; and it does
      not fall as x grows. */
  lemma SegmentBounds(x: int64, x0: int64, x1: int64, y0: int64, y1: int64)
    requires x0 <= x < x1 && y0 < y1 && InSegment(x, x0, x1, y0, y1).Some?
    ensures var y := InSegment(x, x0, x1, y0, y1).value;
      y0 <= y <= y1 && Fits(y) && (x == x0 ==> y == y0)
  {
    var dx := Difference(x1, x0);
    assert dx == x1 - x0;
    NonNegative(x - x0, y1 - y0);
    Strict(x - x0, dx, y1 - y0);
    RoundBelow((x - x0) * (y1 - y0), dx, y1 - y0);
    assert x == x0 ==> (x - x0) * (y1 - y0) == 0 && Round(0, dx) == 0;
  }

  lemma Strict(a: nat, b: nat, c: nat)
    requires a < b && c > 0
    ensures a * c < c * b
  {
  }

  lemma SegmentMonotone(x: int64, x': int64, x0: int64, x1: int64, y0: int64, y1: int64)
    requires x0 <= x <= x' < x1 && y0 < y1
    requires InSegment(x, x0, x1, y0, y1).Some? && InSegment(x', x0, x1, y0, y1).Some?
    ensures InSegment(x, x0, x1, y0, y1).value <= InSegment(x', x0, x1, y0, y1).value
  {
    var dx := Difference(x1, x0);
    NonNegative(x - x0, y1 - y0);
    Scales(x - x0, x' - x0, y1 - y0);
    var (v, w) := ((x - x0) * (y1 - y0), (x' - x0) * (y1 - y0));
    RoundMonotone(v, w, dx);
    assert InSegment(x, x0, x1, y0, y1) == Some(y0 + Round(v, dx));
    assert InSegment(x', x0, x1, y0, y1) == Some(y0 + Round(w, dx));
    hide InSegment, Round;
  }

  /** Where x falls between two entries. */
  lemma Neighbours(x: int64, xs: seq<int64>, ys: seq<int64>, lo: nat)
    requires |xs| == |ys| && Increasing(xs) && Increasing(ys) && lo + 1 < |xs| && xs[lo] <= x < xs[lo + 1]
    ensures forall i :: 0 <= i < |xs| && xs[i] <= x ==> ys[i] <= ys[lo]
    ensures forall i :: 0 <= i < |xs| && x <= xs[i] ==> ys[lo + 1] <= ys[i] || (i == lo && x == xs[lo])
  {
    forall i | 0 <= i < |xs| && xs[i] <= x
      ensures i <= lo
    {
    }
  }

  /** The result lies between the entries around x, hence within the table and in 64 bits. */
  lemma InterpolateBounds(x: int64, xs: seq<int64>, ys: seq<int64>)
    requires |xs| == |ys| && Increasing(xs) && Increasing(ys) && Interpolate(x, xs, ys).Some?
    ensures var y := Interpolate(x, xs, ys).value;
      && Fits(y) && ys[0] <= y <= ys[|ys| - 1]
      && (forall i :: 0 <= i < |xs| && xs[i] <= x ==> ys[i] <= y)
      && (forall i :: 0 <= i < |xs| && x <= xs[i] ==> y <= ys[i])
  {
    if xs[0] < x < xs[|xs| - 1] {
      var lo := InnerSegment(x, xs, ys);
      SegmentBounds(x, xs[lo], xs[lo + 1], ys[lo], ys[lo + 1]);
      hide InSegment, Interpolate;
      Neighbours(x, xs, ys, lo);
    }
  }

  /** The differences and the product that interpolating in a segment needs. */
  predicate SegmentFits(x: int, x0: int, x1: int, y0: int, y1: int) {
    Fits(x1 - x0) && Fits(y1 - y0) && Fits((x - x0) * (y1 - y0))
  }

  /** On an increasing table there is a result exactly when x is clamped or its segment's arithmetic fits: a wrapped
      difference never passes for a small one. */
  lemma InterpolateSucceedsIff(x: int64, xs: seq<int64>, ys: seq<int64>)
    requires |xs| == |ys| >= 2 && Increasing(xs) && Increasing(ys)
    ensures Interpolate(x, xs, ys).Some? <==>
      forall k :: 0 <= k < |xs| - 1 && xs[0] < x && xs[k] <= x < xs[k + 1] ==>
        SegmentFits(x, xs[k], xs[k + 1], ys[k], ys[k + 1])
  {
    if xs[0] < x < xs[|xs| - 1] {
      var lo := InnerSegment(x, xs, ys);
      SegmentSucceedsIff(x, xs[lo], xs[lo + 1], ys[lo], ys[lo + 1]);
      hide InSegment, Interpolate, SegmentFits;
      forall k | 0 <= k < |xs| - 1 && xs[k] <= x < xs[k + 1]
        ensures k == lo
      {
        OneSegment(x, xs, lo, k);
      }
    }
  }

  lemma OneSegment(x: int64, xs: seq<int64>, j: nat, k: nat)
    requires Increasing(xs) && j + 1 < |xs| && k + 1 < |xs| && xs[j] <= x < xs[j + 1] && xs[k] <= x < xs[k + 1]
    ensures j == k
  {
  }

  lemma SegmentSucceedsIff(x: int64, x0: int64, x1: int64, y0: int64, y1: int64)
    requires x0 <= x < x1
    ensures InSegment(x, x0, x1, y0, y1).Some? <==> SegmentFits(x, x0, x1, y0, y1)
  {
    assert Fits(x1 - x0) ==> Fits(x - x0);
    hide Round;
  }

  /** At every entry of the table the result, if there is one, is that entry's. */
  lemma ExactAtKnots(k: nat, xs: seq<int64>, ys: seq<int64>)
    requires |xs| == |ys| && Increasing(xs) && Increasing(ys) && k < |xs| && Interpolate(xs[k], xs, ys).Some?
    ensures Interpolate(xs[k], xs, ys) == Some(ys[k])
  {
    InterpolateBounds(xs[k], xs, ys);
    assert xs[k] <= xs[k];
  }

  /** The result never falls as x grows, over all segments and both clamps. */
  lemma InterpolateMonotone(x: int64, x': int64, xs: seq<int64>, ys: seq<int64>)
    requires |xs| == |ys| && Increasing(xs) && Increasing(ys) && x <= x'
    requires Interpolate(x, xs, ys).Some? && Interpolate(x', xs, ys).Some?
    ensures Interpolate(x, xs, ys).value <= Interpolate(x', xs, ys).value
  {
    InterpolateBounds(x, xs, ys);
    InterpolateBounds(x', xs, ys);
    if xs[0] < x && x' < xs[|xs| - 1] {
      var lo := InnerSegment(x, xs, ys);
      var lo' := InnerSegment(x', xs, ys);
      hide InSegment, Interpolate;
      if lo == lo' {
        SegmentMonotone(x, x', xs[lo], xs[lo + 1], ys[lo], ys[lo + 1]);
      } else {
        assert lo < lo' && x <= xs[lo + 1] <= xs[lo'] <= x';
        assert ys[lo + 1] <= ys[lo'];
      }
    }
  }

  lemma InnerSegment(x: int64, xs: seq<int64>, ys: seq<int64>) returns (lo: nat)
    requires |xs| == |ys| >= 2 && Increasing(xs) && xs[0] < x < xs[|xs| - 1]
    ensures lo + 1 < |xs| && xs[lo] <= x < xs[lo + 1]
    ensures Interpolate(x, xs, ys) == InSegment(x, xs[lo], xs[lo + 1], ys[lo], ys[lo + 1])
  {
    lo := Search(x, xs, 0, |xs| - 1);
    SearchFinds(x, xs, 0, |xs| - 1);
  }
}
