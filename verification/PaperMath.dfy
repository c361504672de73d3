/** Integer facts behind the paper engine: what ceilings and floors may gain or lose. */
module PaperMath {
  import opened FixedPoint

  /** Cash a buy of `size` at `price` moves, rounded up. */
  function Notional(price: int, size: int): int {
    CeilDiv(price * size, SCALE)
  }

  function FeeOf(notional: int, bps: nat): int {
    if bps == 0 then 0 else CeilDiv(notional * (bps * 100), SCALE)
  }

  /** Cash reserved for, and spent by, a buy. */
  function Reserve(price: int, size: int, bps: nat): int {
    Notional(price, size) + FeeOf(Notional(price, size), bps)
  }

  lemma CeilDivSum(a: int, b: int, d: int)
    requires d > 0
    ensures CeilDiv(a + b, d) <= CeilDiv(a, d) + CeilDiv(b, d) <= CeilDiv(a + b, d) + 1
  {
    var x, y, z := CeilDiv(a, d), CeilDiv(b, d), CeilDiv(a + b, d);
    assert (x - 1) * d + (y - 1) * d == (x + y - 2) * d;
    assert x * d + y * d == (x + y) * d;
    if z > x + y {
      MulMonotone(x + y, z - 1, d);
    }
    if x + y - 2 >= z {
      MulMonotone(z, x + y - 2, d);
    }
  }

  lemma CeilDivMonotone(a: int, b: int, d: int)
    requires d > 0 && a <= b
    ensures CeilDiv(a, d) <= CeilDiv(b, d)
  {
    if CeilDiv(b, d) <= CeilDiv(a, d) - 1 {
      MulMonotone(CeilDiv(b, d), CeilDiv(a, d) - 1, d);
    }
  }

  lemma FeeFacts(notional: int, bps: nat)
    requires notional >= 0 && bps <= 10_000
    ensures 0 <= FeeOf(notional, bps) <= notional
  {
    if bps > 0 {
      MulNonNegative(notional, bps * 100);
      MulMonotone(bps * 100, SCALE, notional);
    }
  }

  /** Splitting a notional in two costs at most one extra unit of fee; one extra unit of notional at most one more. */
  lemma FeeSplit(n1: int, n2: int, n: int, bps: nat)
    requires 0 <= n1 && 0 <= n2 && bps <= 10_000 && n <= n1 + n2 <= n + 1
    ensures FeeOf(n, bps) <= FeeOf(n1, bps) + FeeOf(n2, bps) <= FeeOf(n, bps) + 2
    ensures bps == 0 ==> FeeOf(n1, bps) + FeeOf(n2, bps) == 0 == FeeOf(n, bps)
  {
    if bps > 0 {
      var b := bps * 100;
      assert n1 * b + n2 * b == (n1 + n2) * b;
      MulMonotone(n, n1 + n2, b);
      MulMonotone(n1 + n2, n + 1, b);
      assert (n + 1) * b == n * b + b;
      CeilDivSum(n1 * b, n2 * b, SCALE);
      CeilDivMonotone(n * b, (n1 + n2) * b, SCALE);
      CeilDivMonotone((n1 + n2) * b, n * b + SCALE, SCALE);
      CeilDivShift(n * b);
    }
  }

  lemma CeilDivShift(a: int)
    ensures CeilDiv(a + SCALE, SCALE) == CeilDiv(a, SCALE) + 1
  {
  }

  lemma NotionalFacts(price: int, size: int)
    requires 0 < price < SCALE && size > 0
    ensures 0 < Notional(price, size) <= size
    ensures (Notional(price, size) - 1) * SCALE < price * size <= Notional(price, size) * SCALE
  {
    MulNonNegative(price - 1, size);
    assert price * size == (price - 1) * size + size;
    MulMonotone(price, SCALE, size);
  }

  lemma ReserveNonNegative(price: int, size: int, bps: nat)
    requires 0 < price < SCALE && size > 0 && bps <= 10_000
    ensures 0 < Notional(price, size) <= Reserve(price, size, bps)
  {
    NotionalFacts(price, size);
    FeeFacts(Notional(price, size), bps);
  }

  /**
   * Filling `q` of a resting buy of `r`: what the fill costs plus what stays reserved covers the old
   * reservation and exceeds it by at most 3 raw units, or 1 when there are no fees.
   */
  lemma ReserveDrift(price: int, q: int, r: int, bps: nat)
    requires 0 < price < SCALE && 0 < q < r && bps <= 10_000
    ensures Reserve(price, r, bps) <= Reserve(price, q, bps) + Reserve(price, r - q, bps)
            <= Reserve(price, r, bps) + (if bps == 0 then 1 else 3)
  {
    NotionalFacts(price, q);
    NotionalFacts(price, r - q);
    assert price * r == price * q + price * (r - q);
    CeilDivSum(price * q, price * (r - q), SCALE);
    FeeSplit(Notional(price, q), Notional(price, r - q), Notional(price, r), bps);
  }

  /** Both drift bounds are attained. */
  lemma DriftIsTight()
    ensures Reserve(500_000, 5, 4_000) + Reserve(500_000, 5, 4_000) == Reserve(500_000, 10, 4_000) + 3
    ensures Reserve(500_000, 1, 0) + Reserve(500_000, 1, 0) == Reserve(500_000, 2, 0) + 1
  {
  }

  // ----- Cost basis -----

  /** Total cost a buy adds to a position, and the resulting average price, as the engine rounds them. */
  function NewCost(average: int, size: int, price: int, quantity: int, fee: int): int {
    TruncDiv(average * size, SCALE) + TruncDiv(price * quantity, SCALE) + fee
  }

  function NewAverage(average: int, size: int, price: int, quantity: int, fee: int): int
    requires size + quantity > 0
  {
    TruncDiv(NewCost(average, size, price, quantity, fee) * SCALE, size + quantity)
  }

  /** A buy: book value bought never exceeds cash spent, and loses less than 3 units of value plus one per unit held. */
  lemma BuyValue(average: int, size: int, price: int, quantity: int, bps: nat)
    requires average >= 0 && size >= 0 && 0 < price < SCALE && quantity > 0 && bps <= 10_000
    ensures var fee := FeeOf(Notional(price, quantity), bps);
      var gained := NewAverage(average, size, price, quantity, fee) * (size + quantity) - average * size;
      var spent := SCALE * Reserve(price, quantity, bps);
      0 <= spent - gained < 3 * SCALE + (size + quantity)
    ensures NewAverage(average, size, price, quantity, FeeOf(Notional(price, quantity), bps)) >= 0
  {
    NotionalFacts(price, quantity);
    FeeFacts(Notional(price, quantity), bps);
    MulNonNegative(average, size);
    MulNonNegative(price, quantity);
    var fee := FeeOf(Notional(price, quantity), bps);
    var cost := NewCost(average, size, price, quantity, fee);
    var newSize := size + quantity;
    assert cost >= 0;
    var avg := TruncDiv(cost * SCALE, newSize);
    assert avg * newSize <= cost * SCALE < avg * newSize + newSize;
  }

  /** A sell of part of a position: the cost basis removed is under-counted by less than one unit of value. */
  lemma SellValue(average: int, size: int, quantity: int)
    requires average >= 0 && 0 < quantity <= size
    ensures var basis := TruncDiv(average * quantity, SCALE);
      0 <= average * size - average * (size - quantity) - SCALE * basis < SCALE
  {
    MulNonNegative(average, quantity);
    assert average * size - average * (size - quantity) == average * quantity;
  }

  lemma AverageAtMost(average: int, size: int, price: int, quantity: int, bound: int)
    requires 0 <= average <= bound && size >= 0 && 0 < price <= bound && quantity > 0
    ensures NewAverage(average, size, price, quantity, 0) <= bound
  {
    MulNonNegative(average, size);
    MulNonNegative(price, quantity);
    MulMonotone(average, bound, size);
    MulMonotone(price, bound, quantity);
    var cost := NewCost(average, size, price, quantity, 0);
    var newSize := size + quantity;
    assert cost * SCALE <= average * size + price * quantity;
    assert bound * size + bound * quantity == bound * newSize;
    var avg := TruncDiv(cost * SCALE, newSize);
    assert avg * newSize <= bound * newSize;
    assert (bound + 1) * newSize == bound * newSize + newSize;
    if avg >= bound + 1 {
      MulMonotone(bound + 1, avg, newSize);
    }
  }

  /** The average stays within 1 exactly when the accumulated cost is under `(SCALE + 1) / SCALE` per unit held. */
  lemma AverageWithinOne(average: int, size: int, price: int, quantity: int, fee: int)
    requires average >= 0 && size >= 0 && price > 0 && quantity > 0 && fee >= 0
    ensures NewAverage(average, size, price, quantity, fee) <= SCALE
      <==> NewCost(average, size, price, quantity, fee) * SCALE < (SCALE + 1) * (size + quantity)
  {
    MulNonNegative(average, size);
    MulNonNegative(price, quantity);
    var cost := NewCost(average, size, price, quantity, fee);
    var newSize := size + quantity;
    var avg := TruncDiv(cost * SCALE, newSize);
    assert avg * newSize <= cost * SCALE < avg * newSize + newSize;
    assert avg * newSize + newSize == (avg + 1) * newSize;
    if avg <= SCALE {
      MulMonotone(avg + 1, SCALE + 1, newSize);
    } else {
      MulMonotone(SCALE + 1, avg, newSize);
    }
  }
}
