/** Machine integers, results and the few integer facts every other module leans on. */
module Arith {

  const TWO32: int := 0x1_0000_0000
  const TWO64: int := 0x1_0000_0000_0000_0000
  const U64_MAX: int := 0xffff_ffff_ffff_ffff
  const S64_MAX: int := 0x7fff_ffff_ffff_ffff
  const S64_MIN: int := -0x8000_0000_0000_0000
  const NSEC_PER_SEC: int := 1_000_000_000

  type u32 = x: int | 0 <= x < 0x1_0000_0000
  type u64 = x: int | 0 <= x < 0x1_0000_0000_0000_0000
  type s64 = x: int | -0x8000_0000_0000_0000 <= x < 0x8000_0000_0000_0000

  /** A length of time: non-negative and signed 64-bit. */
  type Span = x: int | 0 <= x < 0x8000_0000_0000_0000

  datatype Error = NoDevice | OutOfRange | Invalid

  datatype Result<+T> = Ok(value: T) | Err(error: Error)

  /** What an unsigned 64-bit register keeps of a mathematical integer. */
  function Wrap(x: int): u64 {
    x % TWO64
  }

  predicate Odd(n: int) {
    n % 2 == 1
  }

  function Min(a: int, b: int): int {
    if a < b then a else b
  }

  function Mag(x: int): nat {
    if x < 0 then -x else x
  }

  /** Carry the sign of `like` over to a magnitude. */
  function Signed(like: int, magnitude: int): int {
    if like < 0 then -magnitude else magnitude
  }

  lemma WrapIdentity(x: int)
    requires 0 <= x < TWO64
    ensures Wrap(x) == x
  {
  }

  // ----- products

  lemma MulLe(a: int, b: int, k: int)
    requires a <= b && 0 <= k
    ensures a * k <= b * k
  {
  }

  lemma MulLt(a: int, b: int, k: int)
    requires a < b && 0 < k
    ensures a * k < b * k
  {
  }

  lemma MulCancelLe(a: int, b: int, k: int)
    requires a * k <= b * k && 0 < k
    ensures a <= b
  {
    if b < a {
      MulLt(b, a, k);
    }
  }

  lemma MulCancelLt(a: int, b: int, k: int)
    requires a * k < b * k && 0 < k
    ensures a < b
  {
    if b <= a {
      MulLe(b, a, k);
    }
  }

  lemma MulStep(n: int, k: int)
    ensures (n - 1) * k + k == n * k
  {
  }

  lemma OddAdd(a: int, b: int)
    ensures Odd(a + b) == (Odd(a) != Odd(b))
  {
  }

  // ----- quotients

  lemma DivBounds(a: int, d: int)
    requires 0 < d
    ensures (a / d) * d <= a < (a / d) * d + d
  {
  }

  lemma DivUnique(a: int, d: int, q: int)
    requires 0 < d
    requires q * d <= a < q * d + d
    ensures a / d == q
  {
    DivBounds(a, d);
    assert (a / d) * d < (q + 1) * d;
    assert q * d < (a / d + 1) * d;
    MulCancelLt(a / d, q + 1, d);
    MulCancelLt(q, a / d + 1, d);
  }

  lemma DivAddMultiple(a: int, k: int, d: int)
    requires 0 < d
    ensures (a + k * d) / d == a / d + k
    ensures (a + k * d) % d == a % d
  {
    DivBounds(a, d);
    assert (a / d + k) * d == (a / d) * d + k * d;
    DivUnique(a + k * d, d, a / d + k);
  }

  lemma DivLe(a: int, b: int, d: int)
    requires a <= b && 0 < d
    ensures a / d <= b / d
  {
    DivBounds(a, d);
    DivBounds(b, d);
    assert (a / d) * d < (b / d + 1) * d;
    MulCancelLt(a / d, b / d + 1, d);
  }

  lemma DivNonNegative(a: int, d: int)
    requires 0 <= a && 0 < d
    ensures 0 <= a / d
  {
    DivLe(0, a, d);
  }

  /** A product splits over the whole and the left-over multiples of the divisor. */
  lemma SplitProduct(n: int, k: int, d: int)
    requires 0 < d
    ensures n * k == n % d * k + n / d * k * d
    ensures n * k / d == n / d * k + n % d * k / d
  {
    assert n * k == n % d * k + n / d * k * d by {
      var q, r := n / d, n % d;
      assert (q * d + r) * k == r * k + q * k * d;
    }
    DivAddMultiple(n % d * k, n / d * k, d);
  }

  lemma LeftoverBelow(r: int, k: int, d: int)
    requires 0 <= r < d && 0 <= k
    ensures 0 <= r * k && 0 <= r * k / d <= k
  {
    MulLe(0, r, k);
    MulLe(r, d, k);
    DivLe(0, r * k, d);
    DivLe(r * k, k * d, d);
    DivUnique(k * d, d, k);
  }
}
