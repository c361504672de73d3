/** Six-decimal fixed point held in a signed 128-bit integer: every operation fails outside that range. */
module FixedPoint {
  import opened Prelude

  const SCALE := 1_000_000
  const MAX := 0x7FFF_FFFF_FFFF_FFFF_FFFF_FFFF_FFFF_FFFF
  const MIN := -0x8000_0000_0000_0000_0000_0000_0000_0000
  const U64_MAX := 0xFFFF_FFFF_FFFF_FFFF

  predicate InRange(v: int) {
    MIN <= v <= MAX
  }

  function Checked(v: int, error: string): (r: Result<int>) {
    if InRange(v) then Ok(v) else Err(error)
  }

  /** Integer division rounding toward zero, as the source's `/`. */
  function TruncDiv(n: int, d: int): (q: int)
    requires d != 0
    ensures n >= 0 && d > 0 ==> q * d <= n < q * d + d && q >= 0
  {
    if n >= 0 then
      if d > 0 then
        DivBounds(n, d);
        n / d
      else -(n / -d)
    else if d > 0 then -(-n / d) else -n / -d
  }

  lemma DivBounds(n: int, d: int)
    requires d > 0
    ensures (n / d) * d <= n < (n / d) * d + d
    ensures n >= 0 ==> n / d >= 0
  {
    assert n == d * (n / d) + n % d;
  }

  lemma MulMonotone(a: int, b: int, d: int)
    requires a <= b && d >= 0
    ensures a * d <= b * d
  {
  }

  lemma MulNonNegative(a: int, b: int)
    requires a >= 0 && b >= 0
    ensures a * b >= 0
  {
  }

  lemma DivUnique(n: int, d: int, q: int)
    requires d > 0 && q * d <= n < q * d + d
    ensures n / d == q && n % d == n - q * d
  {
    DivBounds(n, d);
    if n / d < q {
      MulMonotone(n / d + 1, q, d);
    } else if n / d > q {
      MulMonotone(q + 1, n / d, d);
    }
  }

  /** Euclidean quotient rounded up when there is a remainder. */
  function CeilDiv(n: int, d: int): (q: int)
    requires d > 0
    ensures (q - 1) * d < n <= q * d
  {
    DivBounds(n, d);
    if n % d == 0 then n / d else n / d + 1
  }

  function Add(a: int, b: int): Result<int> {
    Checked(a + b, "fixed-point addition overflow")
  }

  function Sub(a: int, b: int): Result<int> {
    Checked(a - b, "fixed-point subtraction overflow")
  }

  /** `checked_mul`: exact product scaled down toward zero. */
  function Mul(a: int, b: int): (r: Result<int>)
    ensures r.Ok? && a * b >= 0 ==> r.value * SCALE <= a * b < r.value * SCALE + SCALE && r.value >= 0
    ensures 0 <= a * b <= MAX ==> r.Ok?
  {
    var product :- Checked(a * b, "fixed-point multiplication overflow");
    Ok(TruncDiv(product, SCALE))
  }

  /** The product scaled down toward zero, whatever the signs; it exists exactly when the unscaled product is in range. */
  lemma MulTruncates(a: int, b: int)
    ensures Mul(a, b).Ok? <==> InRange(a * b)
    ensures Mul(a, b).Ok? && a * b >= 0 ==> Mul(a, b).value * SCALE <= a * b < (Mul(a, b).value + 1) * SCALE
    ensures Mul(a, b).Ok? && a * b < 0 ==> (Mul(a, b).value - 1) * SCALE < a * b <= Mul(a, b).value * SCALE
  {
    DivBounds(-(a * b), SCALE);
  }

  /** `checked_mul_ceil`: never drops a positive remainder. */
  function MulCeil(a: int, b: int): (r: Result<int>)
    ensures r.Ok? ==> (r.value - 1) * SCALE < a * b <= r.value * SCALE
    ensures r.Ok? && a * b >= 0 ==> r.value >= 0
    ensures 0 <= a * b <= MAX ==> r.Ok?
  {
    var product :- Checked(a * b, "fixed-point multiplication overflow");
    Checked(CeilDiv(product, SCALE), "fixed-point multiplication overflow")
  }

  function Div(a: int, b: int): (r: Result<int>)
    ensures r.Ok? && a >= 0 && b > 0 ==> r.value * b <= a * SCALE < r.value * b + b && r.value >= 0
  {
    if b == 0 then Err("fixed-point division by zero")
    else
      var scaled :- Checked(a * SCALE, "fixed-point division overflow");
      Checked(TruncDiv(scaled, b), "fixed-point division overflow")
  }

  function Pow10(n: nat): (p: int)
    ensures p >= 1
  {
    if n == 0 then 1 else 10 * Pow10(n - 1)
  }

  /**
   * Largest value with at most `decimals` fractional digits that does not exceed `a`.
   * The source's last multiplication is unchecked; where it would leave the range this is an error.
   */
  function FloorToDecimals(a: int, decimals: nat): (r: Result<int>)
    ensures r.Ok? ==> decimals <= 6 && r.value % Pow10(6 - decimals) == 0
    ensures r.Ok? ==> r.value <= a < r.value + Pow10(6 - decimals)
    ensures decimals <= 6 && 0 <= a <= MAX ==> r.Ok? && r.value >= 0
  {
    if decimals > 6 then Err("fixed-point decimal precision exceeds six")
    else
      var factor := Pow10(6 - decimals);
      DivBounds(a, factor);
      DivUnique((a / factor) * factor, factor, a / factor);
      Checked((a / factor) * factor, "fixed-point quantization overflow")
  }

  predicate IsAlignedToTick(price: int, tick: int) {
    tick > 0 && price % tick == 0
  }
}
