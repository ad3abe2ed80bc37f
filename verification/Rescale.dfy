/**
 * The split 64-bit rescale at the bottom of every conversion. The machine version wraps where
 * the C code would; the reference version is one exact division on mathematical integers.
 */
module Rescale {
  import opened Arith

  /** Divide the wrapped sub-second product, rounding half up when asked to. */
  function ScaledSubSecond(product: u64, srcHz: u64, nearest: bool): u64
    requires 0 < srcHz
  {
    var remainder := product % srcHz;
    var carry := if nearest && remainder >= srcHz - remainder then 1 else 0;
    Wrap(product / srcHz + carry)
  }

  /** Add the two parts unless the sum leaves the signed range. */
  function Combine(whole: u64, scaledSub: u64): Result<u64> {
    if scaledSub > Wrap(S64_MAX - whole) then Err(OutOfRange) else Ok(Wrap(whole + scaledSub))
  }

  function RescaleCommon(count: u64, srcHz: u64, dstHz: u64, nearest: bool): Result<u64> {
    if srcHz == 0 || dstHz == 0 then Err(NoDevice)
    else if count / srcHz > S64_MAX / dstHz then Err(OutOfRange)
    else Combine(Wrap(count / srcHz * dstHz),
                 ScaledSubSecond(Wrap(count % srcHz * dstHz), srcHz, nearest))
  }

  /** count * dst / src, floored or rounded half up, with no intermediate width. */
  function ExactQuotient(count: nat, srcHz: nat, dstHz: nat, nearest: bool): nat
    requires 0 < srcHz
  {
    if nearest then (2 * (count * dstHz) + srcHz) / (2 * srcHz) else (count * dstHz) / srcHz
  }

  function ExactRescale(count: nat, srcHz: nat, dstHz: nat, nearest: bool): Result<nat> {
    if srcHz == 0 || dstHz == 0 then Err(NoDevice)
    else
      var q := ExactQuotient(count, srcHz, dstHz, nearest);
      if q > S64_MAX then Err(OutOfRange) else Ok(q)
  }

  /** The pair of rates for which the sub-second product always fits 64 bits. */
  predicate ProductFits(srcHz: u64, dstHz: u64) {
    srcHz == 0 || dstHz == 0 || (srcHz - 1) * dstHz < TWO64
  }

  // Rounding half up decides by comparing the remainder with the rest of the divisor.
  lemma RoundHalfUp(x: nat, d: nat)
    requires 0 < d
    ensures (2 * x + d) / (2 * d) == x / d + (if x % d >= d - x % d then 1 else 0)
  {
    var q, r := x / d, x % d;
    assert x == q * d + r;
    if r >= d - r {
      assert 2 * x + d == (q + 1) * (2 * d) + (2 * r - d);
      DivUnique(2 * x + d, 2 * d, q + 1);
    } else {
      assert 2 * x + d == q * (2 * d) + (2 * r + d);
      DivUnique(2 * x + d, 2 * d, q);
    }
  }

  // The exact quotient splits at the whole-second boundary.
  lemma QuotientSplits(count: nat, srcHz: nat, dstHz: nat, nearest: bool)
    requires 0 < srcHz
    ensures ExactQuotient(count, srcHz, dstHz, nearest)
         == count / srcHz * dstHz + ExactQuotient(count % srcHz, srcHz, dstHz, nearest)
  {
    var q, r := count / srcHz, count % srcHz;
    SplitProduct(count, dstHz, srcHz);
    if nearest {
      assert 2 * (count * dstHz) + srcHz == (2 * (r * dstHz) + srcHz) + (q * dstHz) * (2 * srcHz);
      DivAddMultiple(2 * (r * dstHz) + srcHz, q * dstHz, 2 * srcHz);
    }
  }

  lemma QuotientMonotone(a: nat, b: nat, srcHz: nat, dstHz: nat, nearest: bool)
    requires 0 < srcHz && a <= b
    ensures ExactQuotient(a, srcHz, dstHz, nearest) <= ExactQuotient(b, srcHz, dstHz, nearest)
  {
    MulLe(a, b, dstHz);
    DivLe(a * dstHz, b * dstHz, srcHz);
    DivLe(2 * (a * dstHz) + srcHz, 2 * (b * dstHz) + srcHz, 2 * srcHz);
  }

  lemma ScaledSubSecondExact(product: u64, srcHz: u64, nearest: bool)
    requires 1 < srcHz || product == 0
    requires 0 < srcHz
    ensures ScaledSubSecond(product, srcHz, nearest)
         == if nearest then (2 * product + srcHz) / (2 * srcHz) else product / srcHz
    ensures ScaledSubSecond(product, srcHz, nearest) <= product / srcHz + 1
  {
    RoundHalfUp(product, srcHz);
    if 1 < srcHz {
      DivBounds(product, srcHz);
      MulLe(2, srcHz, product / srcHz);
    }
  }

  lemma SecondsGuard(seconds: nat, dstHz: u64)
    requires 0 < dstHz
    ensures seconds > S64_MAX / dstHz <==> seconds * dstHz > S64_MAX
  {
    DivBounds(S64_MAX, dstHz);
    if seconds > S64_MAX / dstHz {
      MulLe(S64_MAX / dstHz + 1, seconds, dstHz);
    } else {
      MulLe(seconds, S64_MAX / dstHz, dstHz);
    }
  }

  // The combined parts, once no product is in sight, are the exact range check.
  lemma CombineExact(whole: nat, scaled: nat)
    requires whole <= S64_MAX && scaled <= U64_MAX
    ensures Combine(whole, scaled) == if whole + scaled > S64_MAX then Err(OutOfRange) else Ok(whole + scaled)
  {
  }

  // With a fitting product nothing wraps, on either side of the range check.
  lemma RescaleIsExact(count: u64, srcHz: u64, dstHz: u64, nearest: bool)
    requires ProductFits(srcHz, dstHz)
    ensures RescaleCommon(count, srcHz, dstHz, nearest) == ExactRescale(count, srcHz, dstHz, nearest)
  {
    if srcHz != 0 && dstHz != 0 {
      QuotientSplits(count, srcHz, dstHz, nearest);
      SecondsGuard(count / srcHz, dstHz);
      SubSecondFits(count % srcHz, srcHz, dstHz, nearest);
      PartsAreExact(count, srcHz, dstHz, nearest, count / srcHz * dstHz,
                    ExactQuotient(count % srcHz, srcHz, dstHz, nearest));
    }
  }

  lemma PartsAreExact(count: u64, srcHz: u64, dstHz: u64, nearest: bool, whole: nat, scaled: nat)
    requires srcHz != 0 && dstHz != 0
    requires whole == count / srcHz * dstHz
    requires count / srcHz > S64_MAX / dstHz <==> whole > S64_MAX
    requires scaled == ScaledSubSecond(Wrap(count % srcHz * dstHz), srcHz, nearest)
    requires ExactQuotient(count, srcHz, dstHz, nearest) == whole + scaled
    ensures RescaleCommon(count, srcHz, dstHz, nearest) == ExactRescale(count, srcHz, dstHz, nearest)
  {
    if whole <= S64_MAX {
      WrapIdentity(whole);
      CombineExact(whole, scaled);
    }
  }

  lemma SubSecondFits(sub: nat, srcHz: u64, dstHz: u64, nearest: bool)
    requires ProductFits(srcHz, dstHz) && sub < srcHz && dstHz != 0
    ensures 0 <= sub * dstHz < TWO64
    ensures ScaledSubSecond(Wrap(sub * dstHz), srcHz, nearest) == ExactQuotient(sub, srcHz, dstHz, nearest)
  {
    MulLe(sub, srcHz - 1, dstHz);
    MulLe(0, sub, dstHz);
    ScaledSubSecondExact(sub * dstHz, srcHz, nearest);
  }

  lemma QuotientDrops(low: nat, x: nat, d: nat)
    requires 0 < d && low + d <= x
    ensures low / d + 1 <= x / d
    ensures (2 * low + d) / (2 * d) + 1 <= (2 * x + d) / (2 * d)
  {
    assert low / d + 1 <= x / d by {
      DivAddMultiple(low, 1, d);
      DivLe(low + 1 * d, x, d);
    }
    assert (2 * low + d) / (2 * d) + 1 <= (2 * x + d) / (2 * d) by {
      DivAddMultiple(2 * low + d, 1, 2 * d);
      DivLe(2 * low + d + 1 * (2 * d), 2 * x + d, 2 * d);
    }
  }

  lemma ThirdOfRange(product: u64, d: nat)
    requires 2 < d
    ensures product / d < S64_MAX
  {
    DivBounds(product, d);
    MulLe(3, d, product / d);
  }

  // A product that wraps loses at least one whole quotient.
  lemma WrapLosesAQuotient(x: nat, d: u64, nearest: bool)
    requires TWO64 <= x && 2 < d
    ensures ScaledSubSecond(Wrap(x), d, nearest)
          < (if nearest then (2 * x + d) / (2 * d) else x / d)
    ensures ScaledSubSecond(Wrap(x), d, nearest) <= S64_MAX
  {
    var product := Wrap(x);
    assert product + d <= x by {
      DivBounds(x, TWO64);
    }
    ScaledSubSecondExact(product, d, nearest);
    QuotientDrops(product, x, d);
    ThirdOfRange(product, d);
  }

  // One count for which a wrapped product is visible in the result.
  lemma WrapShows(srcHz: u64, dstHz: u64, nearest: bool)
    requires !ProductFits(srcHz, dstHz)
    ensures RescaleCommon(srcHz - 1, srcHz, dstHz, nearest) != ExactRescale(srcHz - 1, srcHz, dstHz, nearest)
  {
    var x: nat := (srcHz - 1) * dstHz;
    assert 2 < srcHz by {
      if srcHz <= 2 {
        MulLe(srcHz - 1, 1, dstHz);
      }
    }
    assert (srcHz - 1) / srcHz == 0 && (srcHz - 1) % srcHz == srcHz - 1 by {
      DivUnique(srcHz - 1, srcHz, 0);
    }
    SecondsGuard(0, dstHz);
    WrapLosesAQuotient(x, srcHz, nearest);
    CombineExact(0, ScaledSubSecond(Wrap(x), srcHz, nearest));
    FirstSecond(srcHz, dstHz, nearest);
  }

  lemma FirstSecond(srcHz: u64, dstHz: u64, nearest: bool)
    requires 0 < srcHz && 0 < dstHz
    requires (srcHz - 1) / srcHz == 0 && (srcHz - 1) % srcHz == srcHz - 1
    ensures RescaleCommon(srcHz - 1, srcHz, dstHz, nearest)
         == Combine(0, ScaledSubSecond(Wrap((srcHz - 1) * dstHz), srcHz, nearest))
  {
    assert 0 * dstHz == 0;
  }

  /**
   * Main result: the split computation is the exact quotient, with the exact range error, for
   * every count if and only if the product of the rates (less one destination unit) fits 64 bits.
   */
  lemma RescaleExactIff(srcHz: u64, dstHz: u64, nearest: bool)
    ensures (forall count: u64 ::
               RescaleCommon(count, srcHz, dstHz, nearest) == ExactRescale(count, srcHz, dstHz, nearest))
       <==> ProductFits(srcHz, dstHz)
  {
    if ProductFits(srcHz, dstHz) {
      forall count: u64 {
        RescaleIsExact(count, srcHz, dstHz, nearest);
      }
    } else {
      WrapShows(srcHz, dstHz, nearest);
    }
  }

  /** More cycles never read as less time, and a range error is never followed by a success. */
  lemma RescaleMonotone(a: u64, b: u64, srcHz: u64, dstHz: u64, nearest: bool)
    requires ProductFits(srcHz, dstHz) && a <= b
    requires RescaleCommon(b, srcHz, dstHz, nearest).Ok?
    ensures RescaleCommon(a, srcHz, dstHz, nearest).Ok?
    ensures RescaleCommon(a, srcHz, dstHz, nearest).value <= RescaleCommon(b, srcHz, dstHz, nearest).value
  {
    RescaleIsExact(a, srcHz, dstHz, nearest);
    RescaleIsExact(b, srcHz, dstHz, nearest);
    QuotientMonotone(a, b, srcHz, dstHz, nearest);
  }
}
