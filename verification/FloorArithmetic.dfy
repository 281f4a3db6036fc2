/**
 The integer arithmetic of the contracts: 128-bit signed amounts whose overflow
 traps, Rust's truncating division, and products scaled by a fixed-point factor.
 */
module FloorArithmetic {

  const I128_MAX: int := 0x7fff_ffff_ffff_ffff_ffff_ffff_ffff_ffff
  const U32_MAX: int := 0xffff_ffff
  const FP_ONE: int := 10_000_000

  type Positive = x: int | 0 < x witness 1

  predicate InI128(x: int) {
    -I128_MAX - 1 <= x <= I128_MAX
  }

  /** Rust's `/` on a positive divisor: it rounds toward zero. */
  function TruncDiv(a: int, b: int): (q: int)
    requires b > 0
    ensures 0 <= a ==> 0 <= q && q * b <= a < (q + 1) * b
    ensures a <= 0 ==> q <= 0 && (q - 1) * b < a <= q * b
  {
    if 0 <= a then
      FloorBounds(a, b);
      a / b
    else
      FloorBounds(-a, b);
      var c := (-a) / b;
      assert (-c - 1) * b == -((c + 1) * b);
      assert (-c) * b == -(c * b);
      -c
  }

  function MulFp(a: int, factor: int): int {
    TruncDiv(a * factor, FP_ONE)
  }

  lemma FloorBounds(a: int, b: int)
    requires 0 <= a && 0 < b
    ensures 0 <= a / b && (a / b) * b <= a < (a / b + 1) * b
  {
    assert a == (a / b) * b + a % b;
    assert (a / b + 1) * b == (a / b) * b + b;
    if a / b < 0 {
      MulMonotone(a / b, -1, b);
    }
  }

  lemma MulMonotone(x: int, y: int, k: int)
    requires x <= y && 0 <= k
    ensures x * k <= y * k
  {
    assert 0 <= (y - x) * k;
    assert (y - x) * k == y * k - x * k;
  }

  lemma CancelLess(x: int, y: int, k: int)
    requires x * k < y * k && 0 < k
    ensures x < y
  {
    if y <= x {
      MulMonotone(y, x, k);
    }
  }

  lemma CancelAtMost(x: int, y: int, k: int)
    requires x * k <= y * k && 0 < k
    ensures x <= y
  {
    if y < x {
      assert (y + 1) * k == y * k + k;
      MulMonotone(y + 1, x, k);
    }
  }

  /** A scaled amount lies within one unit of its exact product and keeps the factor's bounds. */
  lemma MulFpBounds(a: int, factor: int)
    requires 0 <= a && 0 <= factor
    ensures 0 <= MulFp(a, factor)
    ensures MulFp(a, factor) * FP_ONE <= a * factor < (MulFp(a, factor) + 1) * FP_ONE
    ensures factor <= FP_ONE ==> MulFp(a, factor) <= a
    ensures FP_ONE <= factor <= 2 * FP_ONE ==> a <= MulFp(a, factor) <= 2 * a
  {
    var q := MulFp(a, factor);
    assert 0 <= a * factor;
    if factor <= FP_ONE {
      MulMonotone(factor, FP_ONE, a);
      CancelAtMost(q, a, FP_ONE);
    }
    if FP_ONE <= factor <= 2 * FP_ONE {
      MulMonotone(FP_ONE, factor, a);
      MulMonotone(factor, 2 * FP_ONE, a);
      CancelLess(a, q + 1, FP_ONE);
      CancelAtMost(q, 2 * a, FP_ONE);
    }
  }

  /** Scaling by an exact 1.00x factor is the identity. */
  lemma MulFpOne(a: int)
    requires 0 <= a
    ensures MulFp(a, FP_ONE) == a
  {
    MulFpBounds(a, FP_ONE);
  }

  function Total(parts: seq<nat>): nat {
    if |parts| == 0 then 0 else Total(parts[..|parts| - 1]) + parts[|parts| - 1]
  }

  /** The floored portions `part * num / den`, added up. */
  function TotalPortions(parts: seq<nat>, num: nat, den: Positive): nat {
    if |parts| == 0 then 0 else
      TotalPortions(parts[..|parts| - 1], num, den) + TruncDiv(parts[|parts| - 1] * num, den)
  }

  /** Two floors add up to the floor of the sum, or to one less. */
  lemma FloorOfSum(a: nat, b: nat, num: nat, den: Positive)
    ensures var x, y, z := TruncDiv(a * num, den), TruncDiv(b * num, den), TruncDiv((a + b) * num, den);
            x + y <= z <= x + y + 1
  {
    var x, y, z := TruncDiv(a * num, den), TruncDiv(b * num, den), TruncDiv((a + b) * num, den);
    assert (a + b) * num == a * num + b * num;
    assert 0 <= a * num && 0 <= b * num;
    assert (x + y) * den == x * den + y * den;
    assert (x + y + 2) * den == (x + 1) * den + (y + 1) * den;
    CancelLess(x + y, z + 1, den);
    CancelLess(z, x + y + 2, den);
  }

  /** Flooring n parts one by one never gives more than flooring their sum, and less than n units less. */
  lemma {:induction false} PortionsOfParts(parts: seq<nat>, num: nat, den: Positive)
    ensures TotalPortions(parts, num, den) <= TruncDiv(Total(parts) * num, den)
    ensures 0 < |parts| ==> TruncDiv(Total(parts) * num, den) <= TotalPortions(parts, num, den) + |parts| - 1
  {
    if 0 < |parts| {
      var before, last := parts[..|parts| - 1], parts[|parts| - 1];
      PortionsOfParts(before, num, den);
      FloorOfSum(Total(before), last, num, den);
      if |before| == 0 {
        assert Total(parts) == last;
      }
    } else {
      assert 0 * num == 0;
    }
  }
}
