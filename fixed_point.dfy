/** The 17.14 fixed-point library of the scheduler: a real number `v` is
    stored as the 32-bit integer `v * F`, `F = 2^14`. Every operation is the
    C expression of the kernel, evaluated on unbounded integers; the absence
    of signed overflow, which C leaves undefined, is each operation's
    precondition. Multiplication and division widen to 64 bits first. */
module FixedPoint {
  import opened CInt

  /** The scale: 14 fractional bits. */
  const F: int := 16384

  /** `n` as a fixed-point value. */
  function ConvIntToFp(n: int): (r: int)
    requires IsInt32(n) && IsInt32(n * F)
  {
    n * F
  }

  /** The integer part of `x`, rounded toward zero. */
  function ConvFpToIntRndZero(x: int): (r: int)
    requires IsInt32(x)
    ensures x >= 0 ==> 0 <= r * F <= x
    ensures x < 0 ==> x <= r * F <= 0
    ensures Abs(x - r * F) < F
  {
    Quot(x, F)
  }

  /** `x` rounded to the nearest integer, halves away from zero. Only the
      sum (or difference) the code actually computes must fit. */
  function ConvFpToIntRndNearest(x: int): (r: int)
    requires IsInt32(x)
    requires x >= 0 ==> IsInt32(x + F / 2)
    requires x < 0 ==> IsInt32(x - F / 2)
    ensures x >= 0 ==> -F / 2 <= x - r * F < F / 2
    ensures x < 0 ==> -F / 2 < x - r * F <= F / 2
  {
    if x >= 0 then Quot(x + F / 2, F) else Quot(x - F / 2, F)
  }

  function AddFpAndFp(x: int, y: int): (r: int)
    requires IsInt32(x) && IsInt32(y) && IsInt32(x + y)
  {
    x + y
  }

  function SubFpFromFp(x: int, y: int): (r: int)
    requires IsInt32(x) && IsInt32(y) && IsInt32(x - y)
  {
    x - y
  }

  function AddFpAndInt(x: int, n: int): (r: int)
    requires IsInt32(x) && IsInt32(n) && IsInt32(n * F) && IsInt32(x + n * F)
  {
    x + n * F
  }

  function SubIntFromFp(x: int, n: int): (r: int)
    requires IsInt32(x) && IsInt32(n) && IsInt32(n * F) && IsInt32(x - n * F)
  {
    x - n * F
  }

  /** The product of two fixed-point values: the exact product of the
      representations, computed in 64 bits, divided by `F` with truncation. */
  function MulFpByFp(x: int, y: int): (r: int)
    requires IsInt32(x) && IsInt32(y) && IsInt32(Quot(x * y, F))
    ensures IsTruncQuot(r, x * y, F)
  {
    Quot(x * y, F)
  }

  function MulFpByInt(x: int, n: int): (r: int)
    requires IsInt32(x) && IsInt32(n) && IsInt32(x * n)
  {
    x * n
  }

  /** The quotient of two fixed-point values: `x` is scaled by `F` in 64 bits
      before the truncating division, so the fraction is kept. */
  function DivFpByFp(x: int, y: int): (r: int)
    requires y != 0 && IsInt32(x) && IsInt32(y) && IsInt32(Quot(x * F, y))
    ensures IsTruncQuot(r, x * F, y)
  {
    Quot(x * F, y)
  }

  /** A fixed-point value divided by an integer, truncated toward zero. The
      one overflowing case, `INT32_MIN / -1`, is excluded by the last requires. */
  function DivFpByInt(x: int, n: int): (r: int)
    requires n != 0 && IsInt32(x) && IsInt32(n) && IsInt32(Quot(x, n))
    ensures IsTruncQuot(r, x, n)
  {
    Quot(x, n)
  }

  // ---------------------------------------------------------------------
  // Properties

  /** One is represented by `F = 2^14 = 16384`. */
  lemma ConvIntToFpOfOne()
    ensures ConvIntToFp(1) == 16384 == F
    ensures ConvIntToFp(0) == 0
  {
  }

  /** Converting an integer in and back out again is the identity on every
      integer whose scaled value fits in 32 bits; rounding to nearest also
      gives it back, except at -131072, the one such integer for which
      `x - F / 2` overflows. */
  lemma {:induction false} RoundTrip(n: int)
    requires -131072 <= n <= 131071
    ensures ConvFpToIntRndZero(ConvIntToFp(n)) == n
    ensures n != -131072 ==> ConvFpToIntRndNearest(ConvIntToFp(n)) == n
    ensures n == -131072 ==> !IsInt32(ConvIntToFp(n) - F / 2)
  {
    QuotUnique(n, n * F, F);
    if n >= 0 {
      QuotUnique(n, n * F + F / 2, F);
    } else if n != -131072 {
      QuotUnique(n, n * F - F / 2, F);
    }
  }

  /** Ties round away from zero. */
  lemma RoundNearestTies()
    ensures ConvFpToIntRndNearest(F / 2) == 1
    ensures ConvFpToIntRndNearest(-F / 2) == -1
    ensures ConvFpToIntRndNearest(F / 2 - 1) == 0
    ensures ConvFpToIntRndNearest(-F / 2 + 1) == 0
  {
  }

  /** The rounded value is at most half a unit away from `x`. */
  lemma RoundNearestError(x: int)
    requires IsInt32(x)
    requires x >= 0 ==> IsInt32(x + F / 2)
    requires x < 0 ==> IsInt32(x - F / 2)
    ensures 2 * Abs(x - ConvFpToIntRndNearest(x) * F) <= F
  {
  }

  /** Mixed addition and subtraction are the fixed-point ones after
      converting the integer; zero is neutral. */
  lemma MixedOpsConvertFirst(x: int, n: int)
    requires IsInt32(x) && IsInt32(n) && IsInt32(n * F)
    requires IsInt32(x + n * F) && IsInt32(x - n * F)
    ensures AddFpAndInt(x, n) == AddFpAndFp(x, ConvIntToFp(n))
    ensures SubIntFromFp(x, n) == SubFpFromFp(x, ConvIntToFp(n))
    ensures AddFpAndFp(x, ConvIntToFp(0)) == x == AddFpAndInt(x, 0)
  {
  }

  /** Fixed-point addition and subtraction undo each other, and addition
      commutes. */
  lemma AddSubInverse(x: int, y: int)
    requires IsInt32(x) && IsInt32(y) && IsInt32(x + y)
    ensures SubFpFromFp(AddFpAndFp(x, y), y) == x
    ensures AddFpAndFp(x, y) == AddFpAndFp(y, x)
  {
  }

  /** Multiplying by an integer is the fixed-point product with that
      integer converted first: the scaling by `F` and the division by `F`
      cancel exactly. */
  lemma {:induction false} MulByIntIsMulByConverted(x: int, n: int)
    requires IsInt32(x) && IsInt32(n) && IsInt32(n * F) && IsInt32(x * n)
    ensures Quot(x * ConvIntToFp(n), F) == x * n
    ensures MulFpByInt(x, n) == MulFpByFp(x, ConvIntToFp(n))
  {
    assert x * ConvIntToFp(n) == (x * n) * F;
    QuotUnique(x * n, (x * n) * F, F);
  }

  /** The 64-bit intermediate of `MulFpByFp` cannot overflow for 32-bit
      operands: `|x * y| <= 2^62`. */
  lemma {:induction false} MulFpByFpWideProductFits(x: int, y: int)
    requires IsInt32(x) && IsInt32(y)
    ensures IsInt64(x * y)
  {
    var bound := 0x8000_0000;
    assert Abs(x) <= bound && Abs(y) <= bound;
    MulMonotone(Abs(x), Abs(y), bound, bound);
    assert Abs(x * y) == Abs(x) * Abs(y) by { AbsMul(x, y); }
  }

  lemma AbsMul(x: int, y: int)
    ensures Abs(x * y) == Abs(x) * Abs(y)
  {
    if x < 0 { assert x * y == -((-x) * y); }
    if y < 0 { assert x * y == -(x * (-y)); }
  }

  lemma MulMonotone(a: nat, b: nat, c: nat, d: nat)
    requires a <= c && b <= d
    ensures a * b <= c * d
  {
    MulNonneg(c - a, b);
    MulNonneg(c, d - b);
    assert c * d - a * b == (c - a) * b + c * (d - b);
  }

  /** The 64-bit intermediate of `DivFpByFp` cannot overflow: `|x * F| <= 2^45`. */
  lemma DivFpByFpWideProductFits(x: int)
    requires IsInt32(x)
    ensures IsInt64(x * F)
  {
  }

  /** Multiplying by one, in either form, is the identity. */
  lemma {:induction false} MulByOne(x: int)
    requires IsInt32(x)
    ensures MulFpByFp(x, ConvIntToFp(1)) == x
    ensures MulFpByInt(x, 1) == x
  {
    QuotUnique(x, x * F, F);
  }

  /** Dividing by one is the identity; in particular one divided by one is one. */
  lemma {:induction false} DivByOne(x: int)
    requires IsInt32(x)
    ensures DivFpByFp(x, ConvIntToFp(1)) == x
  {
    QuotUnique(x, x * F, F);
  }

  lemma OneDividedByOne()
    ensures DivFpByFp(ConvIntToFp(1), ConvIntToFp(1)) == 16384
  {
    DivByOne(F);
  }

  /** The product of two large values: the 64-bit intermediate is fine, but
      the result, 2.5e9 in fixed point, does not fit in 32 bits, so
      `MulFpByFp(ConvIntToFp(50000), ConvIntToFp(50000))` is outside its
      precondition. */
  lemma LargeProductOverflowsResult()
    ensures IsInt32(ConvIntToFp(50000))
    ensures IsInt64(ConvIntToFp(50000) * ConvIntToFp(50000))
    ensures !IsInt32(Quot(ConvIntToFp(50000) * ConvIntToFp(50000), F))
  {
    QuotUnique(50000 * 50000 * F, 50000 * F * (50000 * F), F);
  }
}
