/** Converting computed quotas to integers: rounding, saturation, and the strict
    forms that refuse what would be saturated. */
module QuotaMath {
  import opened Wrappers

  const MAX_QUOTA := 0x7FFF_FFFF
  const MIN_QUOTA := -0x8000_0000
  const TWO_53 := 0x20_0000_0000_0000
  const MAX_WALLET_QUOTA := TWO_53 - 1

  /** A float64, without the difference between the two zeros. */
  datatype F64 = NaN | NegInf | PosInf | Fin(value: real)

  // ----- rounding -----

  /** Half away from zero, as math.Round and Decimal.Round(0). */
  function RoundHalfAway(x: real): int {
    if x >= 0.0 then (x + 0.5).Floor else -((0.5 - x).Floor)
  }

  /** It is the nearest integer, and of two nearest ones the one farther from zero. */
  lemma RoundIsNearest(x: real, n: int)
    ensures n == RoundHalfAway(x) <==>
            if x >= 0.0 then n as real - 0.5 <= x < n as real + 0.5
            else n as real - 0.5 < x <= n as real + 0.5
  {
    if x >= 0.0 {
      FloorIs(x + 0.5, n);
    } else {
      FloorIs(0.5 - x, -n);
    }
  }

  lemma FloorIs(y: real, n: int)
    ensures y.Floor == n <==> n as real <= y < n as real + 1.0
  {
  }

  lemma RoundIsMonotone(x: real, y: real)
    requires x <= y
    ensures RoundHalfAway(x) <= RoundHalfAway(y)
  {
    RoundIsNearest(x, RoundHalfAway(x));
    RoundIsNearest(y, RoundHalfAway(y));
  }

  /** Conversion of a float64 in range to int: toward zero. */
  function Truncate(x: real): int {
    if x >= 0.0 then x.Floor else -((-x).Floor)
  }

  lemma TruncateOfInt(n: int)
    ensures Truncate(n as real) == n
  {
  }

  lemma TruncateIsMonotone(x: real, y: real)
    requires x <= y
    ensures Truncate(x) <= Truncate(y)
  {
    if x >= 0.0 {
    } else if y >= 0.0 {
      assert (-x).Floor >= 0;
    } else {
      assert (-y).Floor <= (-x).Floor;
    }
  }

  // ----- from integers to float64 -----

  function Power2(k: nat): (p: nat)
    ensures p > 0
  {
    if k == 0 then 1 else 2 * Power2(k - 1)
  }

  /** The exponent at which n has at most 53 binary digits. */
  function Scale(n: nat): nat {
    if n < TWO_53 then 0 else 1 + Scale(n / 2)
  }

  /** The digits that are kept: the nearest multiple of the unit, ties to even. */
  function Digits(n: nat, unit: nat): nat
    requires unit > 0
  {
    var q, r := n / unit, n % unit;
    if 2 * r > unit || (2 * r == unit && q % 2 == 1) then q + 1 else q
  }

  const LARGEST_EXPONENT := 971

  function NearestOfNat(n: nat): F64 {
    var s := Scale(n);
    var d := Digits(n, Power2(s));
    if s > LARGEST_EXPONENT || (s == LARGEST_EXPONENT && d == TWO_53) then PosInf
    else Fin((d * Power2(s)) as real)
  }

  /** The float64 nearest to an integer. */
  function Nearest(n: int): F64 {
    if n >= 0 then NearestOfNat(n)
    else match NearestOfNat(-n)
      case Fin(x) => Fin(-x)
      case _ => NegInf
  }

  lemma {:induction false} ScaleBounds(n: nat)
    ensures n < TWO_53 * Power2(Scale(n))
    ensures n >= TWO_53 ==> Scale(n) >= 1 && TWO_53 / 2 * Power2(Scale(n)) <= n
  {
    if n >= TWO_53 {
      ScaleBounds(n / 2);
      assert Power2(Scale(n)) == 2 * Power2(Scale(n / 2));
    }
  }

  lemma QuotientAtLeast(n: nat, unit: nat, least: nat)
    requires unit > 0 && least * unit <= n
    ensures n / unit >= least
  {
    var q, r := n / unit, n % unit;
    assert n == q * unit + r;
    SignOfFactor(q + 1 - least, unit);
  }

  lemma SignOfFactor(a: int, b: nat)
    requires a * b > 0
    ensures a > 0
  {
  }

  /** Up to 53 digits nothing is lost. */
  lemma NearestIsExact(n: int)
    requires -TWO_53 < n < TWO_53
    ensures Nearest(n) == Fin(n as real)
  {
    var m := if n >= 0 then n else -n;
    assert Scale(m) == 0 && Power2(Scale(m)) == 1;
    assert Digits(m, 1) == m;
  }

  /** Beyond, the result does not fall back below 2^53. */
  lemma NearestStaysLarge(n: nat)
    requires n >= TWO_53
    ensures NearestOfNat(n) == PosInf || (NearestOfNat(n).Fin? && NearestOfNat(n).value >= TWO_53 as real)
  {
    var s := Scale(n);
    var unit := Power2(s);
    ScaleBounds(n);
    QuotientAtLeast(n, unit, TWO_53 / 2);
    assert unit == 2 * Power2(s - 1) && unit >= 2;
    var d := Digits(n, unit);
    assert d >= TWO_53 / 2;
    assert d * unit >= TWO_53 / 2 * 2 by {
      AtLeastProduct(d, unit, TWO_53 / 2, 2);
    }
  }

  lemma AtLeastProduct(a: nat, b: nat, x: nat, y: nat)
    requires a >= x && b >= y
    ensures a * b >= x * y
  {
    assert a * b >= x * b;
    assert x * b >= x * y;
  }

  /** The result is nearest: at most half a unit away. */
  lemma NearestIsNear(n: nat)
    requires NearestOfNat(n).Fin?
    ensures var unit := Power2(Scale(n)) as real;
            n as real - unit / 2.0 <= NearestOfNat(n).value <= n as real + unit / 2.0
  {
    var unit := Power2(Scale(n));
    var q, r := n / unit, n % unit;
    assert n == q * unit + r;
    assert (q + 1) * unit == q * unit + unit;
  }

  // ----- saturation -----

  datatype ClampKind = Overflow | Underflow | NotANumber

  datatype Quota = Quota(value: int, clamp: Option<ClampKind>)

  predicate Greater(v: F64, bound: int) {
    v.PosInf? || (v.Fin? && v.value > bound as real)
  }

  predicate Less(v: F64, bound: int) {
    v.NegInf? || (v.Fin? && v.value < bound as real)
  }

  /** saturateQuotaBounded, for bounds that float64 holds exactly. */
  function Saturate(v: F64, max: int, min: int): (q: Quota)
    requires min <= 0 <= max
    ensures min <= q.value <= max
    ensures q.clamp.None? <==> v.Fin? && min as real <= v.value <= max as real
  {
    if v.NaN? then Quota(0, Some(NotANumber))
    else if Greater(v, max) then Quota(max, Some(Overflow))
    else if Less(v, min) then Quota(min, Some(Underflow))
    else
      TruncateOfInt(max);
      TruncateOfInt(min);
      TruncateIsMonotone(v.value, max as real);
      TruncateIsMonotone(min as real, v.value);
      Quota(Truncate(v.value), None)
  }

  /** strictQuota. */
  function Strict(q: Quota): Result<int, ClampKind> {
    if q.clamp.Some? then Err(q.clamp.value) else Ok(q.value)
  }

  /** WalletQuotaFromDecimalStrict. */
  function WalletQuotaFromDecimalStrict(d: real): Result<int, ClampKind> {
    Strict(Saturate(Nearest(RoundHalfAway(d)), MAX_WALLET_QUOTA, -MAX_WALLET_QUOTA))
  }

  function QuotaFromDecimalStrict(d: real): Result<int, ClampKind> {
    Strict(Saturate(Nearest(RoundHalfAway(d)), MAX_QUOTA, MIN_QUOTA))
  }

  /** What a strict conversion of an integer through float64 gives. */
  lemma StrictThroughFloat(n: int, max: int, min: int)
    requires -TWO_53 < min <= 0 <= max < TWO_53
    ensures Strict(Saturate(Nearest(n), max, min)) ==
            if n > max then Err(Overflow) else if n < min then Err(Underflow) else Ok(n)
  {
    if -TWO_53 < n < TWO_53 {
      NearestIsExact(n);
      TruncateOfInt(n);
    } else if n > 0 {
      NearestStaysLarge(n);
    } else {
      NearestStaysLarge(-n);
    }
  }

  /** A decimal becomes its rounding exactly when that lies within 2^53 - 1 of zero,
      and is refused with the right reason otherwise. */
  lemma WalletConversionIsExact(d: real)
    ensures WalletQuotaFromDecimalStrict(d) ==
            var n := RoundHalfAway(d);
            if n > 9007199254740991 then Err(Overflow) else if n < -9007199254740991 then Err(Underflow) else Ok(n)
  {
    StrictThroughFloat(RoundHalfAway(d), MAX_WALLET_QUOTA, -MAX_WALLET_QUOTA);
  }

  lemma QuotaConversionIsExact(d: real)
    ensures QuotaFromDecimalStrict(d) ==
            var n := RoundHalfAway(d);
            if n > 2147483647 then Err(Overflow) else if n < -2147483648 then Err(Underflow) else Ok(n)
  {
    StrictThroughFloat(RoundHalfAway(d), MAX_QUOTA, MIN_QUOTA);
  }

  // ----- settlement -----

  /** The order of float64; NaN is not comparable. */
  ghost predicate AtMost(a: F64, b: F64) {
    && !a.NaN? && !b.NaN?
    && (a.NegInf? || b.PosInf? || (a.Fin? && b.Fin? && a.value <= b.value))
  }

  /** How float64 rounds real results: monotone, zero stays zero. Round to nearest is
      of this kind. */
  ghost predicate IsRounding(fl: real -> F64) {
    && fl(0.0) == Fin(0.0)
    && forall x, y :: x <= y ==> AtMost(fl(x), fl(y))
  }

  function FromInt(fl: real -> F64, n: int): F64 {
    fl(n as real)
  }

  predicate Positive(a: F64) {
    a.PosInf? || (a.Fin? && a.value > 0.0)
  }

  predicate Zero(a: F64) {
    a == Fin(0.0)
  }

  function Times(fl: real -> F64, a: F64, b: F64): F64 {
    if a.NaN? || b.NaN? then NaN
    else if a.Fin? && b.Fin? then fl(a.value * b.value)
    else if Zero(a) || Zero(b) then NaN
    else if Positive(a) == Positive(b) then PosInf
    else NegInf
  }

  function Plus(fl: real -> F64, a: F64, b: F64): F64 {
    if a.NaN? || b.NaN? then NaN
    else if a.Fin? && b.Fin? then fl(a.value + b.value)
    else if a.Fin? then b
    else if b.Fin? || a == b then a
    else NaN
  }

  function MathRound(v: F64): F64 {
    if v.Fin? then Fin(RoundHalfAway(v.value) as real) else v
  }

  /** QuotaRound. */
  function QuotaRound(v: F64): (q: int)
    ensures MIN_QUOTA <= q <= MAX_QUOTA
  {
    Saturate(MathRound(v), MAX_QUOTA, MIN_QUOTA).value
  }

  /** The two steps of a settlement: weight and round, add and round. */
  function Scaled(fl: real -> F64, n: int, ratio: F64): int {
    QuotaRound(Times(fl, FromInt(fl, n), ratio))
  }

  function Added(fl: real -> F64, m: int, n: int): int {
    QuotaRound(Plus(fl, FromInt(fl, m), FromInt(fl, n)))
  }

  /** settleTestQuota for prices per token. */
  function SettlePerToken(fl: real -> F64, prompt: int, completion: int, completionRatio: F64, modelRatio: F64): int {
    var completionQuota := Scaled(fl, completion, completionRatio);
    var tokens := Added(fl, prompt, completionQuota);
    var quota := Scaled(fl, tokens, modelRatio);
    if !Zero(modelRatio) && quota <= 0 then 1 else quota
  }

  lemma QuotaRoundIsMonotone(a: F64, b: F64)
    requires AtMost(a, b)
    ensures QuotaRound(a) <= QuotaRound(b)
  {
    if a.Fin? && b.Fin? {
      RoundIsMonotone(a.value, b.value);
      TruncateOfInt(RoundHalfAway(a.value));
      TruncateOfInt(RoundHalfAway(b.value));
    }
  }

  /** Ratios as they are configured: anything but a negative number. */
  ghost predicate NonNegative(ratio: F64) {
    ratio.NaN? || ratio.PosInf? || (ratio.Fin? && ratio.value >= 0.0)
  }

  lemma ProductIsMonotone(x: real, y: real, r: real)
    requires x <= y && r >= 0.0
    ensures x * r <= y * r
  {
  }

  lemma RoundsOfSpecials()
    ensures QuotaRound(NaN) == 0 && QuotaRound(Fin(0.0)) == 0
    ensures QuotaRound(PosInf) == MAX_QUOTA && QuotaRound(NegInf) == MIN_QUOTA
  {
    assert RoundHalfAway(0.0) == 0;
    TruncateOfInt(0);
  }

  lemma ScaledByZero(fl: real -> F64, a: F64)
    requires IsRounding(fl)
    ensures QuotaRound(Times(fl, a, Fin(0.0))) == 0
  {
    RoundsOfSpecials();
    if a.Fin? {
      assert a.value * 0.0 == 0.0;
    }
  }

  lemma ScaledFinites(fl: real -> F64, a: F64, b: F64, r: real)
    requires IsRounding(fl) && AtMost(a, b) && a.Fin? && b.Fin? && r >= 0.0
    ensures AtMost(Times(fl, a, Fin(r)), Times(fl, b, Fin(r)))
  {
    ProductIsMonotone(a.value, b.value, r);
  }

  lemma ScaledInfinites(fl: real -> F64, a: F64, b: F64, r: real)
    requires IsRounding(fl) && AtMost(a, b) && !(a.Fin? && b.Fin?) && r > 0.0
    ensures AtMost(Times(fl, a, Fin(r)), Times(fl, b, Fin(r)))
  {
    assert forall x :: AtMost(fl(x), fl(x));
  }

  lemma ScaledByFinite(fl: real -> F64, a: F64, b: F64, r: real)
    requires IsRounding(fl) && AtMost(a, b) && r >= 0.0
    ensures QuotaRound(Times(fl, a, Fin(r))) <= QuotaRound(Times(fl, b, Fin(r)))
  {
    if r == 0.0 {
      ScaledByZero(fl, a);
      ScaledByZero(fl, b);
    } else {
      if a.Fin? && b.Fin? {
        ScaledFinites(fl, a, b, r);
      } else {
        ScaledInfinites(fl, a, b, r);
      }
      QuotaRoundIsMonotone(Times(fl, a, Fin(r)), Times(fl, b, Fin(r)));
    }
  }

  lemma ScaledByInfinity(fl: real -> F64, a: F64, b: F64)
    requires AtMost(a, b)
    ensures QuotaRound(Times(fl, a, PosInf)) <= QuotaRound(Times(fl, b, PosInf))
  {
    RoundsOfSpecials();
  }

  /** Multiplying by a ratio and rounding is monotone, even through the NaN that an
      infinite ratio makes of zero. */
  lemma ScaledIsMonotone(fl: real -> F64, a: F64, b: F64, ratio: F64)
    requires IsRounding(fl) && AtMost(a, b) && NonNegative(ratio)
    ensures QuotaRound(Times(fl, a, ratio)) <= QuotaRound(Times(fl, b, ratio))
  {
    if ratio.Fin? {
      ScaledByFinite(fl, a, b, ratio.value);
    } else if ratio.PosInf? {
      ScaledByInfinity(fl, a, b);
    }
  }

  lemma SumIsMonotone(fl: real -> F64, a: F64, b: F64, x: F64, y: F64)
    requires IsRounding(fl) && AtMost(a, b) && AtMost(x, y) && (a.Fin? || x.Fin?) && (b.Fin? || y.Fin?)
    requires !(a.NegInf? && y.PosInf?) && !(x.NegInf? && b.PosInf?)
    ensures AtMost(Plus(fl, a, x), Plus(fl, b, y))
  {
    if a.Fin? && b.Fin? && x.Fin? && y.Fin? {
      assert a.value + x.value <= b.value + y.value;
    }
  }

  /** No quota is too large for a float64. */
  ghost predicate HoldsQuotas(fl: real -> F64) {
    forall n :: MIN_QUOTA <= n <= MAX_QUOTA ==> FromInt(fl, n).Fin?
  }

  /** More tokens of either kind never cost less. */
  lemma SettlementIsMonotone(fl: real -> F64, prompt: int, completion: int, prompt': int, completion': int,
                             completionRatio: F64, modelRatio: F64)
    requires IsRounding(fl) && HoldsQuotas(fl) && NonNegative(completionRatio) && NonNegative(modelRatio)
    requires prompt <= prompt' && completion <= completion'
    ensures SettlePerToken(fl, prompt, completion, completionRatio, modelRatio)
            <= SettlePerToken(fl, prompt', completion', completionRatio, modelRatio)
  {
    ScaledIsMonotone(fl, FromInt(fl, completion), FromInt(fl, completion'), completionRatio);
    var c := QuotaRound(Times(fl, FromInt(fl, completion), completionRatio));
    var c' := QuotaRound(Times(fl, FromInt(fl, completion'), completionRatio));
    SumIsMonotone(fl, FromInt(fl, prompt), FromInt(fl, prompt'), FromInt(fl, c), FromInt(fl, c'));
    var sum, sum' := Plus(fl, FromInt(fl, prompt), FromInt(fl, c)), Plus(fl, FromInt(fl, prompt'), FromInt(fl, c'));
    QuotaRoundIsMonotone(sum, sum');
    ScaledIsMonotone(fl, FromInt(fl, QuotaRound(sum)), FromInt(fl, QuotaRound(sum')), modelRatio);
  }

  /** For every ratio, even a negative or an infinite one, a test costs nothing if the
      model ratio is zero, and otherwise at least one unit and at most what int32 holds. */
  lemma SettlementIsBounded(fl: real -> F64, prompt: int, completion: int, completionRatio: F64, modelRatio: F64)
    requires IsRounding(fl)
    ensures var quota := SettlePerToken(fl, prompt, completion, completionRatio, modelRatio);
            if Zero(modelRatio) then quota == 0 else 1 <= quota <= 2147483647
  {
    if Zero(modelRatio) {
      var c := QuotaRound(Times(fl, FromInt(fl, completion), completionRatio));
      var tokens := QuotaRound(Plus(fl, FromInt(fl, prompt), FromInt(fl, c)));
      ScaledByZero(fl, FromInt(fl, tokens));
    }
  }

  // ----- the value of a settlement -----

  function Clamped(n: int): int {
    if n > MAX_QUOTA then MAX_QUOTA else if n < MIN_QUOTA then MIN_QUOTA else n
  }

  lemma QuotaRoundIs(x: real)
    ensures QuotaRound(Fin(x)) == Clamped(RoundHalfAway(x))
  {
    TruncateOfInt(RoundHalfAway(x));
  }

  /** Exact arithmetic. */
  function Exact(x: real): F64 {
    Fin(x)
  }

  lemma ScaledIs(n: int, ratio: real)
    ensures Scaled(Exact, n, Fin(ratio)) == Clamped(RoundHalfAway(n as real * ratio))
  {
    QuotaRoundIs(n as real * ratio);
  }

  lemma AddedIs(m: int, n: int)
    ensures Added(Exact, m, n) == Clamped(m + n)
  {
    assert m as real + n as real == (m + n) as real;
    QuotaRoundIs((m + n) as real);
    RoundOfInt(m + n);
  }

  lemma RoundOfInt(n: int)
    ensures RoundHalfAway(n as real) == n
  {
    RoundIsNearest(n as real, n);
  }

  /** The rounding is exact on the integers that int32 holds, as that of float64 is. */
  ghost predicate ExactOnInts(fl: real -> F64) {
    forall n :: MIN_QUOTA <= n <= MAX_QUOTA ==> FromInt(fl, n) == Fin(n as real)
  }

  /** At ratio 1 a number stays as it is. */
  lemma ScaledByOne(fl: real -> F64, n: int)
    requires ExactOnInts(fl) && MIN_QUOTA <= n <= MAX_QUOTA
    ensures Scaled(fl, n, Fin(1.0)) == n
  {
    assert FromInt(fl, n) == Fin(n as real);
    assert n as real * 1.0 == n as real;
    QuotaRoundIs(n as real);
    RoundOfInt(n);
  }

  /** Nothing stays nothing at every ratio. */
  lemma NothingScaled(fl: real -> F64, ratio: real)
    requires ExactOnInts(fl)
    ensures Scaled(fl, 0, Fin(ratio)) == 0
  {
    assert FromInt(fl, 0) == Fin(0.0);
    assert 0.0 * ratio == 0.0;
    QuotaRoundIs(0.0);
    RoundOfInt(0);
  }

  lemma AddedInts(fl: real -> F64, m: int, n: int)
    requires ExactOnInts(fl) && MIN_QUOTA <= m <= MAX_QUOTA && MIN_QUOTA <= n <= MAX_QUOTA
    requires MIN_QUOTA <= m + n <= MAX_QUOTA
    ensures Added(fl, m, n) == m + n
  {
    assert FromInt(fl, m) == Fin(m as real) && FromInt(fl, n) == Fin(n as real);
    assert m as real + n as real == (m + n) as real;
    assert FromInt(fl, m + n) == Fin((m + n) as real);
    QuotaRoundIs((m + n) as real);
    RoundOfInt(m + n);
  }

  function AtLeastOne(quota: int): int {
    if quota < 1 then 1 else quota
  }

  /** At ratios 1 and 1 a test costs its tokens, and at least one unit. */
  lemma RatioOneCostsTokens(fl: real -> F64, prompt: nat, completion: nat)
    requires ExactOnInts(fl) && prompt + completion <= MAX_QUOTA
    ensures SettlePerToken(fl, prompt, completion, Fin(1.0), Fin(1.0)) == AtLeastOne(prompt + completion)
  {
    ScaledByOne(fl, completion);
    AddedInts(fl, prompt, completion);
    ScaledByOne(fl, prompt + completion);
  }

  /** The completion ratio weights the completion tokens ... */
  lemma CompletionRatioScales(completion: int, ratio: real)
    ensures SettlePerToken(Exact, 0, completion, Fin(ratio), Fin(1.0)) ==
            AtLeastOne(Clamped(RoundHalfAway(completion as real * ratio)))
  {
    var weighted := Scaled(Exact, completion, Fin(ratio));
    ScaledIs(completion, ratio);
    AddedIs(0, weighted);
    ScaledByOne(Exact, weighted);
  }

  /** ... and nothing else: without any, it does not matter. */
  lemma CompletionRatioIsForCompletion(fl: real -> F64, prompt: int, ratio: real, other: real, modelRatio: F64)
    requires ExactOnInts(fl)
    ensures SettlePerToken(fl, prompt, 0, Fin(ratio), modelRatio) ==
            SettlePerToken(fl, prompt, 0, Fin(other), modelRatio)
  {
    NothingScaled(fl, ratio);
    NothingScaled(fl, other);
  }

  /** The model ratio weights the prompt tokens; a free model costs nothing. */
  lemma ModelRatioScales(prompt: int, ratio: real)
    requires MIN_QUOTA <= prompt <= MAX_QUOTA
    ensures SettlePerToken(Exact, prompt, 0, Fin(1.0), Fin(ratio)) ==
            var quota := Clamped(RoundHalfAway(prompt as real * ratio));
            if ratio == 0.0 then quota else AtLeastOne(quota)
  {
    NothingScaled(Exact, 1.0);
    AddedIs(prompt, 0);
    ScaledIs(prompt, ratio);
  }
}
