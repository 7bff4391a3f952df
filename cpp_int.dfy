/** The parts of C++ `int` arithmetic that the window-centring code relies on:
    the 32-bit range of `int` (signed overflow is undefined behaviour, so a
    computation is only meaningful when every intermediate value lies in that
    range) and the built-in `/`, which truncates toward zero, whereas Dafny's
    `/` on `int` is Euclidean. */
module CppInt {

  const Int32Min: int := -0x8000_0000
  const Int32Max: int := 0x7FFF_FFFF

  /** `v` is a value of a 32-bit C++ `int`. */
  predicate IsInt32(v: int) {
    Int32Min <= v <= Int32Max
  }

  /** C++ `a / b` for a positive divisor: the algebraic quotient with its
      fractional part discarded, so the quotient is rounded toward zero and
      the remainder `a - q * b` takes the sign of the dividend. */
  function TruncDiv(a: int, b: int): (q: int)
    requires b > 0
    ensures a >= 0 ==> 0 <= q && q * b <= a < q * b + b
    ensures a < 0 ==> q <= 0 && q * b - b < a <= q * b
  {
    if a >= 0 then a / b else -((-a) / b)
  }

  /** Reference meaning of integer division, independent of any built-in
      operator: the number of whole copies of `b` that fit in `n`, found by
      taking `b` away until less than `b` remains. */
  function WholeMultiples(n: nat, b: nat): (k: nat)
    requires b > 0
    ensures k * b <= n < k * b + b
    decreases n
  {
    if n < b then 0 else 1 + WholeMultiples(n - b, b)
  }

  /** C++ division counts the whole copies of the divisor in the dividend's
      magnitude and gives the count the dividend's sign. */
  lemma TruncDivCountsWholeMultiples(a: int, b: int)
    requires b > 0
    ensures TruncDiv(a, b) == if a >= 0 then WholeMultiples(a, b) as int else -(WholeMultiples(-a, b) as int)
  {
    if a >= 0 {
      TruncDivUnique(a, b, WholeMultiples(a, b));
    } else {
      TruncDivUnique(a, b, -(WholeMultiples(-a, b) as int));
    }
  }

  /** The contract of `TruncDiv` pins the quotient down: any `q` that
      leaves a remainder of the dividend's sign and of magnitude below `b`
      is the truncated quotient. */
  lemma TruncDivUnique(a: int, b: int, q: int)
    requires b > 0
    requires a >= 0 ==> q * b <= a < q * b + b
    requires a < 0 ==> q * b - b < a <= q * b
    ensures q == TruncDiv(a, b)
  {
    var t := TruncDiv(a, b);
    LessFromProduct(q, t + 1, b);
    LessFromProduct(t, q + 1, b);
  }

  /** A strict inequality between two multiples of a positive factor is one
      between the multiplied values. */
  lemma LessFromProduct(x: int, y: int, b: int)
    requires b > 0 && x * b < y * b
    ensures x < y
  {
    if x >= y {
      MulMonotone(y, x, b);
    }
  }

  /** Multiplying by a positive factor preserves `<=`. */
  lemma MulMonotone(x: int, y: int, b: int)
    requires x <= y && b > 0
    ensures x * b <= y * b
  {
    var d := y - x;
    assert y * b == x * b + d * b;
  }

  /** Truncating and Euclidean division agree on a non-negative dividend. */
  lemma TruncDivOfNonNegative(a: int, b: int)
    requires a >= 0 && b > 0
    ensures TruncDiv(a, b) == a / b
  {
  }

  /** They disagree on a negative odd dividend: C++ gives `-1 / 2 == 0`
      where Dafny's `/` gives `-1`. */
  lemma TruncDivOfNegativeDiffers()
    ensures TruncDiv(-1, 2) == 0 && -1 / 2 == -1
  {
  }

  /** The clamp `if (v < 0) v = 0;` applied to an `int` local. */
  function ClampAtZero(v: int): (r: int)
    ensures r >= 0 && r >= v
    ensures v >= 0 ==> r == v
    ensures v <= 0 ==> r == 0
  {
    if v < 0 then 0 else v
  }

  /** Once the result is clamped at zero, truncating and Euclidean division
      are interchangeable: the sign of a negative dividend never reaches the
      clamped value. */
  lemma ClampedTruncDivIsClampedEuclidean(a: int, b: int)
    requires b > 0
    ensures ClampAtZero(TruncDiv(a, b)) == ClampAtZero(a / b)
  {
  }

  /** The quotient of an `int` by a positive `int` is itself an `int`. */
  lemma TruncDivStaysInt32(a: int, b: int)
    requires IsInt32(a) && IsInt32(b) && b > 0
    ensures IsInt32(TruncDiv(a, b))
  {
  }
}
