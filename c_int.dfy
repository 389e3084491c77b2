/** The C integer semantics the kernel code relies on: the ranges of `int`
    (32-bit), `int64_t` and `unsigned`, the conversion of an `unsigned` to
    `int`, and C99 division, which truncates toward zero (Dafny's `/` on `int`
    is Euclidean, so it is never used directly on operands that may be
    negative). */
module CInt {

  const INT32_MIN: int := -0x8000_0000
  const INT32_MAX: int := 0x7FFF_FFFF
  const INT64_MIN: int := -0x8000_0000_0000_0000
  const INT64_MAX: int := 0x7FFF_FFFF_FFFF_FFFF
  const UINT32_LIMIT: int := 0x1_0000_0000

  predicate IsInt32(x: int) { INT32_MIN <= x <= INT32_MAX }

  predicate IsInt64(x: int) { INT64_MIN <= x <= INT64_MAX }

  function Abs(x: int): (a: nat) { if x < 0 then -x else x }

  /** `q` is a quotient of `a` by `b` rounded toward zero: `q * b` lies between
      0 and `a` and is less than `|b|` away from `a`. */
  predicate IsTruncQuot(q: int, a: int, b: int)
  {
    && (a >= 0 ==> 0 <= q * b <= a)
    && (a < 0 ==> a <= q * b <= 0)
    && Abs(a - q * b) < Abs(b)
  }

  /** C's `a / b`. */
  function Quot(a: int, b: int): (q: int)
    requires b != 0
    ensures IsTruncQuot(q, a, b)
  {
    var m := Abs(a) / Abs(b);
    SignedQuotient(a, b, m);
    if (a < 0) == (b < 0) then m else -m
  }

  /** Euclidean division of naturals leaves a remainder below the divisor. */
  lemma DivBounds(x: nat, y: nat)
    requires y > 0
    ensures x - y < (x / y) * y <= x
  {
  }

  lemma SignedQuotient(a: int, b: int, m: int)
    requires b != 0 && m == Abs(a) / Abs(b)
    ensures IsTruncQuot(if (a < 0) == (b < 0) then m else -m, a, b)
  {
    var B := Abs(b);
    DivBounds(Abs(a), B);
    var mB := m * B;
    MulNonneg(m, B);
    var q := if (a < 0) == (b < 0) then m else -m;
    SignedProduct(q, b, m, B);
    assert q * b == if a < 0 then -mB else mB;
  }

  /** The sign rule for the product of the quotient and the divisor. */
  lemma SignedProduct(q: int, b: int, m: int, B: int)
    requires b != 0 && B == Abs(b) && (q == m || q == -m)
    ensures q * b == if (q == m) == (b > 0) then m * B else -(m * B)
  {
    if b < 0 {
      assert q * b == -(q * B);
    }
    if q == -m {
      assert q * B == -(m * B);
    }
  }

  lemma MulNonneg(x: int, y: int)
    requires x >= 0 && y >= 0
    ensures x * y >= 0
  {
  }

  /** A nonzero multiple of `b` is at least `|b|` in magnitude. */
  lemma MultipleAtLeast(k: int, b: int)
    requires k != 0
    ensures Abs(k * b) >= Abs(b)
  {
    var kk := Abs(k);
    MulNonneg(kk - 1, Abs(b));
    assert (kk - 1) * Abs(b) == kk * Abs(b) - Abs(b);
    assert k * b == kk * Abs(b) || k * b == -(kk * Abs(b));
  }

  lemma DistributeRight(p: int, q: int, b: int)
    ensures (p - q) * b == p * b - q * b
  {
  }

  /** The truncated quotient is unique, so any `q` meeting `IsTruncQuot` is C's `a / b`. */
  lemma {:induction false} QuotUnique(q: int, a: int, b: int)
    requires b != 0 && IsTruncQuot(q, a, b)
    ensures Quot(a, b) == q
  {
    var p := Quot(a, b);
    if p != q {
      MultipleAtLeast(p - q, b);
      DistributeRight(p, q, b);
      assert false;
    }
  }

  /** C's conversion of an `unsigned` to `int`: values above `INT32_MAX` wrap
      to negative numbers (the two's-complement behaviour of the kernel's
      compiler). */
  function UnsignedToInt(u: int): (r: int)
    requires 0 <= u < UINT32_LIMIT
    ensures IsInt32(r)
    ensures r == u || r == u - UINT32_LIMIT
    ensures u <= INT32_MAX ==> r == u
  {
    if u <= INT32_MAX then u else u - UINT32_LIMIT
  }
}
