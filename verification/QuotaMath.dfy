/** Quota conversions: half-away-from-zero rounding, the decimal to binary64 conversion,
    saturation and the strict variants that reject instead of saturating.

    A decimal is a `real`. A binary64 number is one of the two infinities, NaN, or a real; which
    reals are representable matters only where an integer is converted, and there the conversion
    is spelled out as round-to-nearest, ties-to-even on a 53-bit significand.
 */
module QuotaMath {

  const MAX_QUOTA: int := 2147483647
  const MIN_QUOTA: int := -2147483648
  const MAX_WALLET_QUOTA: int := 9007199254740991
  const QUOTA_PER_UNIT: real := 500000.0

  datatype Float = NaN | PosInf | NegInf | Finite(r: real)

  // ---------------------------------------------------------------------------
  // Rounding
  // ---------------------------------------------------------------------------

  function AbsInt(n: int): nat { if n < 0 then -n else n }

  function AbsReal(x: real): real { if x < 0.0 then -x else x }

  /** Half away from zero: `math.Round` and `decimal.Round(0)`. */
  function RoundHalfAway(x: real): int {
    if x >= 0.0 then (x + 0.5).Floor else -((-x + 0.5).Floor)
  }

  /** Toward zero: Go's float to int conversion. */
  function Truncate(x: real): int {
    if x >= 0.0 then x.Floor else -((-x).Floor)
  }

  /** n is a nearest integer to x, and of two equally near ones the one further from zero. */
  predicate IsHalfAway(x: real, n: int) {
    && AbsReal(x - n as real) <= 0.5
    && (AbsReal(x - n as real) == 0.5 ==> AbsReal(n as real) > AbsReal(x))
  }

  /** RoundHalfAway computes it, and there is only one. */
  lemma RoundHalfAwayExact(x: real, n: int)
    ensures IsHalfAway(x, RoundHalfAway(x))
    ensures IsHalfAway(x, n) ==> n == RoundHalfAway(x)
  {
  }

  lemma RoundMonotone(x: real, y: real)
    requires x <= y
    ensures RoundHalfAway(x) <= RoundHalfAway(y)
  {
  }

  lemma RoundOfInt(n: int)
    ensures RoundHalfAway(n as real) == n
  {
  }

  // ---------------------------------------------------------------------------
  // Integer to binary64
  // ---------------------------------------------------------------------------

  function Pow2(e: nat): (p: nat)
    ensures p >= 1
  {
    if e == 0 then 1 else 2 * Pow2(e - 1)
  }

  /** The exponent of the last significand bit: the least e with m < 2^(53+e). */
  function UlpExponent(m: nat): (e: nat)
    ensures m < 9007199254740992 * Pow2(e)
    ensures e > 0 ==> 4503599627370496 * Pow2(e) <= m
  {
    if m < 9007199254740992 then 0
    else
      var e := UlpExponent(m / 2);
      e + 1
  }

  /** q + rem/ulp rounded to an integer, ties to even. */
  function RoundToEven(q: nat, rem: nat, ulp: nat): nat
    requires rem < ulp
  {
    if 2 * rem < ulp || (2 * rem == ulp && q % 2 == 0) then q else q + 1
  }

  /** Magnitude of the binary64 value nearest to the integer m, before the overflow test. */
  function NearestMagnitude(m: nat): int {
    Significand(m) * Pow2(UlpExponent(m))
  }

  function Significand(m: nat): nat {
    var ulp := Pow2(UlpExponent(m));
    RoundToEven(m / ulp, m % ulp, ulp)
  }

  /** Magnitudes of 2^1024 and above are not finite. */
  function MaxExponent(): nat { 1024 }

  /** `Float64()` of an integral decimal: magnitudes that round to 2^1024 or more are infinite. */
  function FloatOfInt(n: int): Float {
    var v := NearestMagnitude(AbsInt(n));
    if v >= Pow2(MaxExponent()) then (if n < 0 then NegInf else PosInf)
    else Finite((if n < 0 then -v else v) as real)
  }

  lemma MulAtLeast(a: nat, b: nat, u: nat)
    requires a <= b
    ensures a * u <= b * u
  {
  }

  lemma DivMod(m: nat, u: nat)
    requires u >= 1
    ensures m == (m / u) * u + m % u
    ensures (m / u + 1) * u == (m / u) * u + u
  {
  }

  lemma DivAtLeast(m: nat, k: nat, u: nat)
    requires u >= 1 && k * u <= m
    ensures k <= m / u
  {
    if m / u < k {
      DivMod(m, u);
      MulAtLeast(m / u + 1, k, u);
    }
  }

  /** The quotient before rounding has at most 53 bits, and exactly 53 when the last place is above one. */
  lemma SignificandFits(m: nat)
    ensures m / Pow2(UlpExponent(m)) < 9007199254740992
    ensures UlpExponent(m) > 0 ==> 4503599627370496 <= m / Pow2(UlpExponent(m))
  {
    var e := UlpExponent(m);
    var ulp := Pow2(e);
    hide Pow2, UlpExponent;
    QuotientBelow(m, 9007199254740992, ulp);
    if e > 0 { DivAtLeast(m, 4503599627370496, ulp); }
  }

  lemma QuotientBelow(m: nat, k: nat, u: nat)
    requires u > 0 && m < k * u
    ensures m / u < k
  {
    DivMod(m, u);
    if m / u >= k { MulAtLeast(k, m / u, u); }
  }

  lemma RoundedIsNearest(m: int, q: nat, rem: nat, ulp: nat)
    requires rem < ulp && m == q * ulp + rem
    ensures
      var r: int := RoundToEven(q, rem, ulp);
      && q <= r <= q + 1
      && -(ulp as int) <= 2 * (r * ulp - m) <= ulp
      && (AbsInt(2 * (r * ulp - m)) == ulp ==> r % 2 == 0)
  {
    assert (q + 1) * ulp - m == ulp - rem;
  }

  /** The conversion picks a multiple of the last place that is nearest, even on a tie. */
  lemma NearestIsNearest(m: nat)
    ensures
      var ulp: int := Pow2(UlpExponent(m));
      var q: int := Significand(m);
      && NearestMagnitude(m) == q * ulp
      && -ulp <= 2 * (q * ulp - m) <= ulp
      && (AbsInt(2 * (q * ulp - m)) == ulp ==> q % 2 == 0)
      && q <= 9007199254740992 && (UlpExponent(m) > 0 ==> 4503599627370496 <= q)
  {
    var ulp := Pow2(UlpExponent(m));
    hide Pow2, UlpExponent, RoundToEven;
    SignificandFits(m);
    DivMod(m, ulp);
    RoundedIsNearest(m, m / ulp, m % ulp, ulp);
  }

  /** Integers of at most 53 bits are exact; larger ones never round below 2^53. */
  lemma NearestBoundary(m: nat)
    ensures m <= MAX_WALLET_QUOTA ==> NearestMagnitude(m) == m
    ensures m > MAX_WALLET_QUOTA ==> NearestMagnitude(m) > MAX_WALLET_QUOTA
  {
    var e := UlpExponent(m);
    var ulp := Pow2(e);
    if m <= MAX_WALLET_QUOTA {
      assert e == 0 && ulp == 1 && m / ulp == m && m % ulp == 0;
    } else {
      assert e > 0 && ulp == 2 * Pow2(e - 1);
      DivAtLeast(m, 4503599627370496, ulp);
      MulAtLeast(4503599627370496, Significand(m), ulp);
      assert 4503599627370496 * ulp == 9007199254740992 * Pow2(e - 1);
    }
  }

  lemma Pow2IsHuge(e: nat)
    requires e >= 53
    ensures Pow2(e) >= 9007199254740992
    decreases e
  {
    if e == 53 {
      Pow2Of53();
    } else {
      Pow2IsHuge(e - 1);
    }
  }

  lemma Pow2Sum(a: nat, b: nat)
    ensures Pow2(a + b) == Pow2(a) * Pow2(b)
    decreases a
  {
    if a > 0 {
      Pow2Sum(a - 1, b);
      assert Pow2(a + b) == 2 * Pow2(a - 1 + b);
      Assoc3(2, Pow2(a - 1), Pow2(b));
    } else {
      assert Pow2(a) * Pow2(b) == Pow2(b);
    }
  }

  lemma Assoc3(a: int, b: int, c: int)
    ensures a * (b * c) == (a * b) * c
  {
  }

  lemma Pow2Of53()
    ensures Pow2(53) == 9007199254740992
  {
    assert Pow2(13) == 8192;
    assert Pow2(10) == 1024;
    hide Pow2;
    Pow2Sum(10, 10);
    Pow2Sum(20, 20);
    Pow2Sum(40, 13);
  }

  lemma Pow2Grows(a: nat, b: nat)
    requires a <= b
    ensures Pow2(a) <= Pow2(b)
    decreases b
  {
    if a < b { Pow2Grows(a, b - 1); }
  }

  lemma FarAbove(m: nat, k: nat)
    requires UlpExponent(m) > k
    ensures NearestMagnitude(m) >= 9007199254740992 * Pow2(k) && m >= 9007199254740992 * Pow2(k)
  {
    var e := UlpExponent(m);
    assert Pow2(k + 1) == 2 * Pow2(k);
    assert 4503599627370496 * Pow2(e) <= m;
    Pow2Grows(k + 1, e);
    NearestIsNearest(m);
    hide Pow2, UlpExponent, NearestMagnitude, Significand;
    MulAtLeast(4503599627370496, Significand(m), Pow2(e));
  }

  lemma FarBelow(m: nat, k: nat)
    requires UlpExponent(m) <= k
    ensures NearestMagnitude(m) <= 9007199254740992 * Pow2(k) && m < 9007199254740992 * Pow2(k)
  {
    var e := UlpExponent(m);
    assert m < 9007199254740992 * Pow2(e);
    Pow2Grows(e, k);
    NearestIsNearest(m);
    hide Pow2, UlpExponent, NearestMagnitude, Significand;
    MulAtLeast(Significand(m), 9007199254740992, Pow2(e));
  }

  /** A magnitude rounds up to 53 + k bits exactly from half a last place below 2^(53+k). */
  lemma RoundsUpFrom(m: nat, k: nat)
    requires k > 0
    ensures NearestMagnitude(m) >= 9007199254740992 * Pow2(k) <==> m >= 9007199254740992 * Pow2(k) - Pow2(k - 1)
  {
    var half := Pow2(k - 1);
    assert Pow2(k) == 2 * half;
    hide Pow2, UlpExponent, NearestMagnitude, Significand;
    if UlpExponent(m) > k {
      FarAbove(m, k);
    } else if UlpExponent(m) < k {
      FarBelow(m, k - 1);
    } else {
      NearestIsNearest(m);
      if Significand(m) < 9007199254740992 {
        LastPlaceBelow(m, Significand(m), half);
      }
    }
  }

  lemma LastPlaceBelow(m: nat, q: nat, half: nat)
    requires half > 0 && q < 9007199254740992
    requires -2 * half <= 2 * (q * (2 * half) - m) <= 2 * half
    requires AbsInt(2 * (q * (2 * half) - m)) == 2 * half ==> q % 2 == 0
    ensures m < 9007199254740992 * (2 * half) - half && q * (2 * half) < 9007199254740992 * (2 * half)
  {
    if q < 9007199254740991 {
      MulAtLeast(q, 9007199254740990, 2 * half);
    } else {
      assert q % 2 == 1;
    }
  }

  /** The conversion of an integer is finite exactly below the midpoint between the greatest finite value and
      2^1024; beyond it the sign decides which infinity it is. */
  lemma FiniteIff(n: int)
    ensures FloatOfInt(n).Finite? <==> AbsInt(n) < Pow2(1024) - Pow2(970)
    ensures FloatOfInt(n).PosInf? <==> n >= Pow2(1024) - Pow2(970)
    ensures FloatOfInt(n).NegInf? <==> -n >= Pow2(1024) - Pow2(970)
  {
    hide Pow2, NearestMagnitude;
    Pow2Sum(53, 971);
    Pow2Of53();
    RoundsUpFrom(AbsInt(n), 971);
    GreatestIsPositive();
  }

  lemma GreatestIsPositive()
    ensures Pow2(970) < Pow2(1024)
  {
    hide Pow2;
    Pow2Sum(54, 970);
    Pow2IsHuge(54);
    MulAtLeast(2, Pow2(54), Pow2(970));
  }

  // ---------------------------------------------------------------------------
  // Saturation and its strict form
  // ---------------------------------------------------------------------------

  datatype ClampKind = Overflow | Underflow | NotANumber
  datatype Clamp = Clamp(op: string, kind: ClampKind, original: Float, clamped: int)
  datatype MaybeClamp = NoClamp | Clamped(c: Clamp)
  datatype Checked = Checked(quota: int, clamp: MaybeClamp)
  datatype Strict = Ok(quota: int) | Rejected(c: Clamp)

  predicate Above(v: Float, bound: int) {
    v.PosInf? || (v.Finite? && v.r > bound as real)
  }

  predicate Below(v: Float, bound: int) {
    v.NegInf? || (v.Finite? && v.r < bound as real)
  }

  function SaturateQuotaBounded(value: Float, op: string, maxQuota: int, minQuota: int): Checked
    requires minQuota <= maxQuota
  {
    if value.NaN? then Checked(0, Clamped(Clamp(op, NotANumber, value, 0)))
    else if Above(value, maxQuota) then Checked(maxQuota, Clamped(Clamp(op, Overflow, value, maxQuota)))
    else if Below(value, minQuota) then Checked(minQuota, Clamped(Clamp(op, Underflow, value, minQuota)))
    else Checked(Truncate(value.r), NoClamp)
  }

  function StrictQuota(c: Checked): Strict {
    if c.clamp.Clamped? then Rejected(c.clamp.c) else Ok(c.quota)
  }

  function SaturateQuota(value: Float, op: string): Checked {
    SaturateQuotaBounded(value, op, MAX_QUOTA, MIN_QUOTA)
  }

  function QuotaFromFloatChecked(value: Float): Checked {
    SaturateQuota(value, "QuotaFromFloat")
  }

  function RoundFloat(value: Float): Float {
    if value.Finite? then Finite(RoundHalfAway(value.r) as real) else value
  }

  function QuotaRoundChecked(value: Float): Checked {
    SaturateQuota(RoundFloat(value), "QuotaRound")
  }

  function QuotaFromDecimalChecked(d: real): Checked {
    SaturateQuota(FloatOfInt(RoundHalfAway(d)), "QuotaFromDecimal")
  }

  function WalletQuotaFromDecimalStrict(d: real): Strict {
    StrictQuota(SaturateQuotaBounded(FloatOfInt(RoundHalfAway(d)), "WalletQuotaFromDecimal",
                                     MAX_WALLET_QUOTA, -MAX_WALLET_QUOTA))
  }

  /** The nearest value of [lo, hi]. */
  function Project(n: int, lo: int, hi: int): int {
    if n < lo then lo else if n > hi then hi else n
  }

  /** A bound check after the conversion is a bound check before it, for any bounds within 53 bits. */
  lemma ConversionKeepsBounds(n: int, maxQuota: int, minQuota: int, op: string)
    requires -MAX_WALLET_QUOTA <= minQuota <= maxQuota <= MAX_WALLET_QUOTA
    ensures
      var c := SaturateQuotaBounded(FloatOfInt(n), op, maxQuota, minQuota);
      && c.quota == Project(n, minQuota, maxQuota)
      && (c.clamp.NoClamp? <==> minQuota <= n <= maxQuota)
      && (c.clamp.Clamped? ==> (&& c.clamp.c.clamped == c.quota && c.clamp.c.op == op
                                && c.clamp.c.kind == if n > maxQuota then Overflow else Underflow))
  {
    hide Pow2, NearestMagnitude;
    NearestBoundary(AbsInt(n));
    Pow2IsHuge(MaxExponent());
  }

  /** Wallet conversion: accepts exactly the decimals that round to a 53-bit integer, and returns
      that integer unchanged; precision loss never lets a larger one through. */
  lemma WalletConversionExact(d: real)
    ensures
      var n := RoundHalfAway(d);
      match WalletQuotaFromDecimalStrict(d)
      case Ok(q) => q == n && -MAX_WALLET_QUOTA <= n <= MAX_WALLET_QUOTA
      case Rejected(c) => !(-MAX_WALLET_QUOTA <= n <= MAX_WALLET_QUOTA)
                          && c.clamped == Project(n, -MAX_WALLET_QUOTA, MAX_WALLET_QUOTA)
  {
    ConversionKeepsBounds(RoundHalfAway(d), MAX_WALLET_QUOTA, -MAX_WALLET_QUOTA, "WalletQuotaFromDecimal");
  }

  /** Single-request conversion of a decimal: the same in the int32 domain, saturating to the
      nearer bound. */
  lemma DecimalConversionExact(d: real)
    ensures
      var n := RoundHalfAway(d);
      && QuotaFromDecimalChecked(d).quota == Project(n, MIN_QUOTA, MAX_QUOTA)
      && (StrictQuota(QuotaFromDecimalChecked(d)) == Ok(n) <==> MIN_QUOTA <= n <= MAX_QUOTA)
      && (StrictQuota(QuotaFromDecimalChecked(d)).Rejected? <==> !(MIN_QUOTA <= n <= MAX_QUOTA))
  {
    ConversionKeepsBounds(RoundHalfAway(d), MAX_QUOTA, MIN_QUOTA, "QuotaFromDecimal");
  }

  /** Rounding a float: accepted exactly in the open interval whose ends round out of range. */
  lemma RoundConversionExact(v: Float)
    ensures
      var c := QuotaRoundChecked(v);
      && (StrictQuota(c).Ok? <==> v.Finite? && -2147483648.5 < v.r < 2147483647.5)
      && (v.Finite? ==> c.quota == Project(RoundHalfAway(v.r), MIN_QUOTA, MAX_QUOTA))
      && (v.NaN? ==> c.quota == 0) && (v.PosInf? ==> c.quota == MAX_QUOTA) && (v.NegInf? ==> c.quota == MIN_QUOTA)
  {
    if v.Finite? {
      var n := RoundHalfAway(v.r);
      assert Truncate(n as real) == n;
    }
  }

  /** Truncating a float: accepted exactly in the closed range, off by less than one and never away
      from zero. */
  lemma FloatConversionExact(v: Float)
    ensures
      var c := QuotaFromFloatChecked(v);
      && (StrictQuota(c).Ok? <==> v.Finite? && MIN_QUOTA as real <= v.r <= MAX_QUOTA as real)
      && (StrictQuota(c).Ok? ==> AbsReal(v.r - c.quota as real) < 1.0 && AbsReal(c.quota as real) <= AbsReal(v.r))
      && MIN_QUOTA <= c.quota <= MAX_QUOTA
      && (v.NaN? ==> StrictQuota(c) == Rejected(Clamp("QuotaFromFloat", NotANumber, v, 0)) && c.quota == 0)
      && (v.PosInf? || (v.Finite? && v.r > MAX_QUOTA as real) ==>
            StrictQuota(c) == Rejected(Clamp("QuotaFromFloat", Overflow, v, MAX_QUOTA)) && c.quota == MAX_QUOTA)
      && (v.NegInf? || (v.Finite? && v.r < MIN_QUOTA as real) ==>
            StrictQuota(c) == Rejected(Clamp("QuotaFromFloat", Underflow, v, MIN_QUOTA)) && c.quota == MIN_QUOTA)
  {
    if v.Finite? {
      var q := Truncate(v.r);
    }
  }

  // ---------------------------------------------------------------------------
  // The quota charged for a channel test
  // ---------------------------------------------------------------------------

  datatype Price = Price(usePrice: bool, modelPrice: real, modelRatio: real, completionRatio: real)

  function QuotaRound(x: real): int {
    QuotaRoundChecked(Finite(x)).quota
  }

  function Scale(x: real, ratio: real): real { x * ratio }

  /** The three rounding stages, before the minimum charge. */
  function StagedQuota(prompt: nat, completion: nat, p: Price): int {
    var completionQuota := QuotaRound(Scale(completion as real, p.completionRatio));
    var tokens := QuotaRound(prompt as real + completionQuota as real);
    QuotaRound(Scale(tokens as real, p.modelRatio))
  }

  function SettleTestQuota(prompt: nat, completion: nat, p: Price): int {
    if p.usePrice then QuotaFromFloatChecked(Finite(p.modelPrice * QUOTA_PER_UNIT)).quota
    else
      var q := StagedQuota(prompt, completion, p);
      if p.modelRatio != 0.0 && q <= 0 then 1 else q
  }

  lemma QuotaRoundIs(x: real)
    ensures QuotaRound(x) == Project(RoundHalfAway(x), MIN_QUOTA, MAX_QUOTA)
  {
    RoundConversionExact(Finite(x));
  }

  /** The test quota: a fixed price times half a million, truncated; otherwise the completion tokens times
      their ratio, plus the prompt tokens, times the model ratio, each rounded half away from zero and
      kept within int32, and at least one unless the model ratio is zero. */
  lemma TestQuotaIs(prompt: nat, completion: nat, p: Price)
    ensures p.usePrice ==> SettleTestQuota(prompt, completion, p) == Project(Truncate(p.modelPrice * 500000.0), -2147483648, 2147483647)
    ensures !p.usePrice ==>
              var c := Project(RoundHalfAway(Scale(completion as real, p.completionRatio)), -2147483648, 2147483647);
              var t := Project(RoundHalfAway(prompt as real + c as real), -2147483648, 2147483647);
              var q := Project(RoundHalfAway(Scale(t as real, p.modelRatio)), -2147483648, 2147483647);
              SettleTestQuota(prompt, completion, p) == if q < 1 && p.modelRatio != 0.0 then 1 else q
  {
    hide RoundHalfAway, Scale, QuotaRound, QuotaFromFloatChecked;
    var c := QuotaRound(Scale(completion as real, p.completionRatio));
    var t := QuotaRound(prompt as real + c as real);
    QuotaRoundIs(Scale(completion as real, p.completionRatio));
    QuotaRoundIs(prompt as real + c as real);
    QuotaRoundIs(Scale(t as real, p.modelRatio));
    TruncatedQuotaIs(p.modelPrice * QUOTA_PER_UNIT);
  }

  lemma TruncatedQuotaIs(x: real)
    ensures QuotaFromFloatChecked(Finite(x)).quota == Project(Truncate(x), -2147483648, 2147483647)
  {
  }

  lemma QuotaRoundMonotone(x: real, y: real)
    requires x <= y
    ensures QuotaRound(x) <= QuotaRound(y)
  {
    QuotaRoundIs(x);
    QuotaRoundIs(y);
    RoundMonotone(x, y);
  }

  lemma ScaleMonotone(a: real, b: real, m: real)
    requires a <= b && m >= 0.0
    ensures Scale(a, m) <= Scale(b, m)
  {
  }

  lemma ScaleNonNegative(a: real, m: real)
    requires a >= 0.0 && m >= 0.0
    ensures Scale(a, m) >= 0.0
  {
  }

  lemma ScaleSum(a: real, b: real, m: real)
    ensures Scale(a + b, m) == Scale(a, m) + Scale(b, m)
  {
  }

  lemma ScaleHalf(x: real, m: real)
    requires -0.5 <= x <= 0.5 && m >= 0.0
    ensures -0.5 * m <= Scale(x, m) <= 0.5 * m
  {
    ScaleMonotone(x, 0.5, m);
    ScaleMonotone(-0.5, x, m);
  }

  /** More tokens never cost less, saturation and the minimum charge included. */
  lemma TestQuotaMonotone(prompt: nat, prompt': nat, completion: nat, completion': nat, p: Price)
    requires prompt <= prompt' && completion <= completion'
    requires p.modelRatio >= 0.0 && p.completionRatio >= 0.0
    ensures SettleTestQuota(prompt, completion, p) <= SettleTestQuota(prompt', completion', p)
  {
    hide QuotaRoundChecked, QuotaFromFloatChecked, Scale;
    var x, x' := Scale(completion as real, p.completionRatio), Scale(completion' as real, p.completionRatio);
    ScaleMonotone(completion as real, completion' as real, p.completionRatio);
    QuotaRoundMonotone(x, x');
    var n, n' := prompt as real + QuotaRound(x) as real, prompt' as real + QuotaRound(x') as real;
    QuotaRoundMonotone(n, n');
    ScaleMonotone(QuotaRound(n) as real, QuotaRound(n') as real, p.modelRatio);
    QuotaRoundMonotone(Scale(QuotaRound(n) as real, p.modelRatio), Scale(QuotaRound(n') as real, p.modelRatio));
  }

  lemma RoundWithinHalf(x: real)
    ensures -0.5 <= RoundHalfAway(x) as real - x <= 0.5
    ensures x >= 0.0 ==> RoundHalfAway(x) >= 0
  {
  }

  /** Where no stage saturates, the staged quota is within half the model ratio plus one half of the
      exact product. */
  lemma TestQuotaNearExact(prompt: nat, completion: nat, p: Price)
    requires p.modelRatio >= 0.0 && p.completionRatio >= 0.0
    requires
      var c := RoundHalfAway(Scale(completion as real, p.completionRatio));
      && c <= MAX_QUOTA && prompt + c <= MAX_QUOTA
      && RoundHalfAway(Scale((prompt + c) as real, p.modelRatio)) <= MAX_QUOTA
    ensures
      var exact := Scale(prompt as real + Scale(completion as real, p.completionRatio), p.modelRatio);
      AbsReal(StagedQuota(prompt, completion, p) as real - exact) <= 0.5 * p.modelRatio + 0.5
  {
    hide QuotaRoundChecked, Scale, RoundHalfAway;
    var x := Scale(completion as real, p.completionRatio);
    ScaleNonNegative(completion as real, p.completionRatio);
    RoundWithinHalf(x);
    var c := RoundHalfAway(x);
    var y := Scale((prompt + c) as real, p.modelRatio);
    ScaleNonNegative((prompt + c) as real, p.modelRatio);
    RoundWithinHalf(y);
    RoundOfInt(prompt + c);
    QuotaRoundIs(x);
    QuotaRoundIs((prompt + c) as real);
    QuotaRoundIs(y);
    assert (prompt + c) as real == prompt as real + c as real;
    ErrorBudget(prompt as real, x, c as real, RoundHalfAway(y) as real, p.modelRatio);
  }

  lemma ErrorBudget(n: real, x: real, c: real, q: real, m: real)
    requires m >= 0.0 && -0.5 <= c - x <= 0.5 && -0.5 <= q - Scale(n + c, m) <= 0.5
    ensures -(0.5 * m + 0.5) <= q - Scale(n + x, m) <= 0.5 * m + 0.5
  {
    hide Scale;
    ScaleHalf(c - x, m);
    ScaleSum(n + x, c - x, m);
    assert (n + x) + (c - x) == n + c;
  }
}
