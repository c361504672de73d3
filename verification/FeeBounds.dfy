/** Floor/ceiling envelope around the venue's fee `size * rate * price * (1 - price)`. */
module FeeBounds {
  import opened Prelude
  import opened FixedPoint

  const MAX_RATE_BPS := 10_000_000_000
  const RATE_DENOMINATOR := 10_000_000_000

  /** The exact fee, in raw units, is `FeeNumerator / FEE_DENOMINATOR`. */
  const FEE_DENOMINATOR := 10_000_000_000_000_000_000_000

  ghost function FeeNumerator(size: int, price: int, rateBps: int): int {
    size * price * (SCALE - price) * rateBps
  }

  predicate ValidFeeTerms(size: int, price: int, rateBps: int) {
    size > 0 && 0 < price < SCALE && 0 <= rateBps <= MAX_RATE_BPS
  }

  function BasisPointProduct(amount: int, rateBps: int, roundUp: bool): (r: Result<int>)
    ensures r.Ok? ==> (r.value - 1) * RATE_DENOMINATOR < amount * rateBps < (r.value + 1) * RATE_DENOMINATOR
    ensures r.Ok? && roundUp ==> amount * rateBps <= r.value * RATE_DENOMINATOR
    ensures r.Ok? && !roundUp ==> r.value * RATE_DENOMINATOR <= amount * rateBps
  {
    var numerator :- Checked(amount * rateBps, "fee-bound multiplication overflow");
    if roundUp then
      Checked(CeilDiv(numerator, RATE_DENOMINATOR), "fee-bound rounding overflow")
    else
      Ok(numerator / RATE_DENOMINATOR)
  }

  function CeilToFiveDecimals(value: int): (r: Result<int>)
    ensures r.Ok? ==> r.value % 10 == 0 && value <= r.value < value + 10
  {
    if value < 0 then Err("cannot round a negative fee bound")
    else Checked(CeilDiv(value, 10) * 10, "fee-bound quantization overflow")
  }

  /** Lower and upper fee bound of one trade; `Err` for invalid terms or overflow. */
  function TradeFeeBounds(size: int, price: int, rateBps: int): Result<(int, int)> {
    if !ValidFeeTerms(size, price, rateBps) then Err("authoritative_trade_fee_terms_invalid")
    else if rateBps == 0 then Ok((0, 0))
    else
      var complement :- Sub(SCALE, price);
      var notionalLower :- Mul(size, price);
      var baseLower :- Mul(notionalLower, complement);
      var notionalUpper :- MulCeil(size, price);
      var baseUpper :- MulCeil(notionalUpper, complement);
      var feeLower :- BasisPointProduct(baseLower, rateBps, false);
      var feeUpper :- BasisPointProduct(baseUpper, rateBps, true);
      var lower :- FloorToDecimals(feeLower, 5);
      var upper :- CeilToFiveDecimals(feeUpper);
      Ok((lower, upper))
  }

  /** Rounding through two scaled products and one rate: the bracket keeps its direction. */
  lemma BracketChain(x: int, c: int, r: int, a: int, b: int, f: int)
    requires 0 <= c && 0 <= r
    ensures a * SCALE <= x && b * SCALE <= a * c && f * RATE_DENOMINATOR <= b * r
      ==> f * FEE_DENOMINATOR <= x * c * r
    ensures a * SCALE >= x && b * SCALE >= a * c && f * RATE_DENOMINATOR >= b * r
      ==> f * FEE_DENOMINATOR >= x * c * r
  {
    var bs, as_ := b * SCALE, a * SCALE;
    assert (a * c) * SCALE == as_ * c;
    assert (b * r) * SCALE == bs * r;
    assert ((a * c) * r) * SCALE == (as_ * c) * r;
    assert f * FEE_DENOMINATOR == f * RATE_DENOMINATOR * SCALE * SCALE;
    if as_ <= x && bs <= a * c && f * RATE_DENOMINATOR <= b * r {
      MulMonotone(bs, a * c, r);
      MulMonotone(as_, x, c);
      MulMonotone(as_ * c, x * c, r);
    }
    if as_ >= x && bs >= a * c && f * RATE_DENOMINATOR >= b * r {
      MulMonotone(a * c, bs, r);
      MulMonotone(x, as_, c);
      MulMonotone(x * c, as_ * c, r);
    }
  }

  lemma EnvelopeWidth(a: int, a': int, c: int, bl: int, bu: int, r: int, fl: int, fu: int)
    requires 0 <= c < SCALE && 0 <= r <= RATE_DENOMINATOR && a' <= a + 1
    requires a * c < bl * SCALE + SCALE && bu * SCALE < a' * c + SCALE
    requires bl * r < (fl + 1) * RATE_DENOMINATOR && (fu - 1) * RATE_DENOMINATOR < bu * r
    ensures fu <= fl + 3
  {
    MulMonotone(a', a + 1, c);
    assert (a + 1) * c == a * c + c;
    assert bu <= bl + 2;
    MulMonotone(bu, bl + 2, r);
    assert (bl + 2) * r == bl * r + 2 * r;
  }

  lemma RoundOut(exact: int, fl: int, fu: int, lower: int, upper: int)
    requires fl * FEE_DENOMINATOR <= exact <= fu * FEE_DENOMINATOR && fu <= fl + 3
    requires lower % 10 == 0 && lower <= fl < lower + 10
    requires upper % 10 == 0 && fu <= upper < fu + 10
    ensures lower * FEE_DENOMINATOR <= exact <= upper * FEE_DENOMINATOR
    ensures 0 <= upper - lower <= 20
  {
  }

  /**
   * Sound and tight: the bounds enclose the exact rational fee, are multiples of 0.00001,
   * and are never more than 0.00002 (20 raw units) apart.
   */
  lemma FeeEnvelope(size: int, price: int, rateBps: int)
    requires TradeFeeBounds(size, price, rateBps).Ok?
    ensures var (lower, upper) := TradeFeeBounds(size, price, rateBps).value;
      && lower * FEE_DENOMINATOR <= FeeNumerator(size, price, rateBps) <= upper * FEE_DENOMINATOR
      && 0 <= upper - lower <= 20
      && lower % 10 == 0 && upper % 10 == 0
  {
    if rateBps != 0 {
      var c := SCALE - price;
      MulNonNegative(size, price);
      var a, a' := Mul(size, price).value, MulCeil(size, price).value;
      MulNonNegative(a, c);
      MulNonNegative(a', c);
      var bl, bu := Mul(a, c).value, MulCeil(a', c).value;
      var fl := BasisPointProduct(bl, rateBps, false).value;
      var fu := BasisPointProduct(bu, rateBps, true).value;
      var (lower, upper) := TradeFeeBounds(size, price, rateBps).value;
      assert Pow10(1) == 10;
      BracketChain(size * price, c, rateBps, a, bl, fl);
      BracketChain(size * price, c, rateBps, a', bu, fu);
      EnvelopeWidth(a, a', c, bl, bu, rateBps, fl, fu);
      RoundOut(size * price * c * rateBps, fl, fu, lower, upper);
    }
  }

  lemma ProductAtMost(a: int, b: int, bound: int)
    requires 0 <= a && 0 <= b <= bound
    ensures 0 <= a * b <= a * bound
  {
  }

  lemma BoundsFit(size: int, price: int, rateBps: int)
    requires ValidFeeTerms(size, price, rateBps)
    requires (size + 1) * RATE_DENOMINATOR <= MAX
    ensures TradeFeeBounds(size, price, rateBps).Ok?
  {
    if rateBps != 0 {
      var c := SCALE - price;
      ProductAtMost(size, price, SCALE);
      var a, a' := Mul(size, price).value, MulCeil(size, price).value;
      assert 0 <= a <= a' <= size;
      ProductAtMost(a, c, SCALE);
      ProductAtMost(a', c, SCALE);
      var bl, bu := Mul(a, c).value, MulCeil(a', c).value;
      assert 0 <= bl <= size && 0 <= bu <= size;
      ProductAtMost(bl, rateBps, RATE_DENOMINATOR);
      ProductAtMost(bu, rateBps, RATE_DENOMINATOR);
      assert BasisPointProduct(bl, rateBps, false).Ok?;
      assert BasisPointProduct(bu, rateBps, true).Ok?;
      var fl := BasisPointProduct(bl, rateBps, false).value;
      var fu := BasisPointProduct(bu, rateBps, true).value;
      assert 0 <= fl <= size && 0 <= fu <= size;
    }
  }

  /**
   * Which terms get bounds: a positive size, a price strictly between 0 and 1, and a rate from 0 to 10 000 basis points.
   * Such terms fail only by overflow, and not while the product of the size with the largest rate fits.
   */
  lemma FeeBoundsDefined(size: int, price: int, rateBps: int)
    ensures TradeFeeBounds(size, price, rateBps).Ok? ==> size > 0 && 0 < price < 1_000_000 && 0 <= rateBps <= 10_000 * 1_000_000
    ensures size > 0 && 0 < price < 1_000_000 && 0 <= rateBps <= 10_000 * 1_000_000 && (size + 1) * 10_000_000_000 <= MAX
      ==> TradeFeeBounds(size, price, rateBps).Ok?
  {
    if ValidFeeTerms(size, price, rateBps) && (size + 1) * RATE_DENOMINATOR <= MAX {
      BoundsFit(size, price, rateBps);
    }
  }
}
