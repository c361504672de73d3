/** The invariant of the paper engine and how a single fill moves it. */
module PaperInvariant {
  import opened Prelude
  import opened Ordered
  import opened Sums
  import opened FixedPoint
  import opened Book
  import opened PaperMath
  import opened PaperCore

  // ----- Measures -----

  ghost function OpenBuyReserve(feeBps: nat): Order -> int {
    (o: Order) => if IsOpen(o.status) && o.intent.side.Buy? then Reserve(o.intent.limitPrice, o.remainingSize, feeBps) else 0
  }

  ghost function OpenSellSize(assetId: string): Order -> int {
    (o: Order) => if OpenSellOf(o, assetId) then o.remainingSize else 0
  }

  ghost function PositionValue(): Position -> int {
    (p: Position) => p.averagePrice * p.size
  }

  /** Exact cash reserved by open buys. */
  ghost function TotalReserved(e: Engine): int {
    MapSum(e.orders, OpenBuyReserve(e.feeBps))
  }

  ghost function OpenSells(e: Engine, assetId: string): int {
    MapSum(e.orders, OpenSellSize(assetId))
  }

  /** Positions at average cost, in units of `1 / SCALE` raw. */
  ghost function BookValue(e: Engine): int {
    MapSum(e.positions, PositionValue())
  }

  /** What rounding has lost so far: never negative. */
  ghost function Slack(e: Engine): int {
    SCALE * (e.startingCash + e.realizedPnl) - SCALE * e.cash - BookValue(e)
  }

  // ----- Invariant -----

  /** What the risk checks guarantee of an intent before it is submitted. */
  predicate IntentOk(i: Intent) {
    0 < i.limitPrice < SCALE && i.size > 0 && InRange(i.size)
  }

  predicate OrderOk(id: string, o: Order) {
    && o.clientOrderId == id && IntentOk(o.intent)
    && o.filledSize >= 0 && o.remainingSize >= 0 && o.feesPaid >= 0
    && o.filledSize + o.remainingSize == o.intent.size
    && (IsOpen(o.status) ==> o.remainingSize > 0)
  }

  predicate PositionOk(assetId: string, p: Position) {
    p.assetId == assetId && 0 <= p.size <= MAX && p.averagePrice >= 0
  }

  ghost predicate Shape(e: Engine) {
    && TotalsValid(e)
    && (forall id | id in e.orders :: OrderOk(id, e.orders[id]))
    && (forall a | a in e.positions :: PositionOk(a, e.positions[a]))
  }

  ghost predicate SellsCovered(e: Engine) {
    forall a :: OpenSells(e, a) <= Held(e, a)
  }

  /** How far `k` partial buy fills can push reservations past cash. */
  function DriftBound(feeBps: nat, k: nat): nat {
    if feeBps == 0 then k else 3 * k
  }

  /** `partialBuys` counts the buy fills so far that left their order open. */
  ghost predicate Inv(e: Engine, partialBuys: nat) {
    && Shape(e)
    && Slack(e) >= 0
    && TotalReserved(e) <= e.cash + DriftBound(e.feeBps, partialBuys)
    && SellsCovered(e)
  }

  lemma InvFacts(e: Engine, k: nat)
    requires Inv(e, k)
    ensures Shape(e) && Slack(e) >= 0
  {
  }

  // ----- What the checked operations compute when they succeed -----

  lemma BpsAmountIsFee(value: int, bps: nat)
    requires BpsAmount(value, bps).Ok?
    ensures BpsAmount(value, bps).value == FeeOf(value, bps)
  {
  }

  lemma BuyReserveIsReserve(price: int, size: int, feeBps: nat)
    requires BuyReserve(price, size, feeBps).Ok?
    ensures BuyReserve(price, size, feeBps).value == Reserve(price, size, feeBps)
  {
    BpsAmountIsFee(Notional(price, size), feeBps);
  }

  /** A successful fill, taken apart. */
  lemma FillParts(e: Engine, id: string, quantity: int, price: int, now: nat) returns (moved: Engine, filled: Order)
    requires ApplyFillAtPrice(e, id, quantity, price, now).Ok?
    ensures id in e.orders
    ensures var o := e.orders[id];
      var i := o.intent;
      var notional := Notional(price, quantity);
      var fee := FeeOf(notional, e.feeBps);
      && 0 < quantity <= o.remainingSize && 0 < price < SCALE
      && (if i.side.Buy? then price <= i.limitPrice else price >= i.limitPrice)
      && (if i.side.Buy? then ApplyBuy(e, i.assetId, quantity, price, notional, fee)
          else ApplySell(e, i.assetId, quantity, notional, fee)) == Ok(moved)
      && FilledOrder(o, quantity, fee) == Ok(filled)
      && ApplyFillAtPrice(e, id, quantity, price, now).value ==
         (moved.(orders := moved.orders[id := filled]),
          Fill(id, i.assetId, i.side, price, quantity, notional, fee, now, filled.remainingSize == 0))
  {
    var o := e.orders[id];
    var i := o.intent;
    var notional := Notional(price, quantity);
    BpsAmountIsFee(notional, e.feeBps);
    var fee := FeeOf(notional, e.feeBps);
    moved := (if i.side.Buy? then ApplyBuy(e, i.assetId, quantity, price, notional, fee)
              else ApplySell(e, i.assetId, quantity, notional, fee)).value;
    filled := FilledOrder(o, quantity, fee).value;
  }

  ghost function PositionOrNew(e: Engine, assetId: string): Position {
    if assetId in e.positions then e.positions[assetId] else Position(assetId, 0, 0, 0)
  }

  /** A successful buy in exact integers. */
  lemma BuyParts(e: Engine, assetId: string, quantity: int, price: int, notional: int, fee: int)
    requires Held(e, assetId) + quantity > 0
    requires ApplyBuy(e, assetId, quantity, price, notional, fee).Ok?
    ensures var p := PositionOrNew(e, assetId);
      && notional + fee <= e.cash
      && ApplyBuy(e, assetId, quantity, price, notional, fee).value ==
         e.(cash := e.cash - (notional + fee), feesPaid := e.feesPaid + fee,
            positions := e.positions[assetId :=
              p.(size := p.size + quantity, averagePrice := NewAverage(p.averagePrice, p.size, price, quantity, fee))])
  {
  }

  /** A buy: cash falls by cost, the position grows, and rounding loses between zero and `3 * SCALE + new size`. */
  lemma BuyMoves(e: Engine, assetId: string, quantity: int, price: int)
    requires Shape(e) && 0 < price < SCALE && quantity > 0
    requires ApplyBuy(e, assetId, quantity, price, Notional(price, quantity), FeeOf(Notional(price, quantity), e.feeBps)).Ok?
    ensures var fee := FeeOf(Notional(price, quantity), e.feeBps);
      var d := ApplyBuy(e, assetId, quantity, price, Notional(price, quantity), fee).value;
      var p := PositionOrNew(e, assetId);
      && Shape(d)
      && d == e.(cash := e.cash - Reserve(price, quantity, e.feeBps), feesPaid := d.feesPaid, positions := d.positions)
      && d.positions == e.positions[assetId := d.positions[assetId]]
      && Held(d, assetId) == Held(e, assetId) + quantity
      && d.positions[assetId].averagePrice == NewAverage(p.averagePrice, p.size, price, quantity, fee)
      && 0 <= Slack(d) - Slack(e) < 3 * SCALE + Held(d, assetId)
  {
    hide Notional, FeeOf, NewAverage, MapSum;
    var notional := Notional(price, quantity);
    var fee := FeeOf(notional, e.feeBps);
    NotionalFacts(price, quantity);
    FeeFacts(notional, e.feeBps);
    var p := PositionOrNew(e, assetId);
    BuyParts(e, assetId, quantity, price, notional, fee);
    BuyValue(p.averagePrice, p.size, price, quantity, e.feeBps);
    var d := ApplyBuy(e, assetId, quantity, price, notional, fee).value;
    MapSumUpdate(e.positions, assetId, d.positions[assetId], PositionValue());
    assert PositionValue()(p) == p.averagePrice * p.size;
  }

  /** The engine after a sell, written out. */
  function Sold(e: Engine, assetId: string, quantity: int, notional: int, fee: int): Engine
    requires assetId in e.positions
  {
    var p := e.positions[assetId];
    var realized := notional - fee - TruncDiv(p.averagePrice * quantity, SCALE);
    var size := p.size - quantity;
    e.(cash := e.cash + notional - fee, realizedPnl := e.realizedPnl + realized, feesPaid := e.feesPaid + fee,
       positions := e.positions[assetId := p.(size := size,
         averagePrice := if size == 0 then 0 else p.averagePrice, realizedPnl := p.realizedPnl + realized)])
  }

  /** A successful sell in exact integers. */
  lemma SellParts(e: Engine, assetId: string, quantity: int, notional: int, fee: int)
    requires ApplySell(e, assetId, quantity, notional, fee).Ok?
    ensures assetId in e.positions && quantity <= e.positions[assetId].size
    ensures ApplySell(e, assetId, quantity, notional, fee).value == Sold(e, assetId, quantity, notional, fee)
  {
  }

  /** Value moved out of a position at its average, rounded toward zero: less than one unit is lost. */
  lemma SoldSlack(e: Engine, assetId: string, quantity: int, notional: int, fee: int)
    requires assetId in e.positions && 0 < quantity <= e.positions[assetId].size && e.positions[assetId].averagePrice >= 0
    ensures 0 <= Slack(Sold(e, assetId, quantity, notional, fee)) - Slack(e) < SCALE
  {
    var p := e.positions[assetId];
    var d := Sold(e, assetId, quantity, notional, fee);
    SellValue(p.averagePrice, p.size, quantity);
    MapSumUpdate(e.positions, assetId, d.positions[assetId], PositionValue());
    assert PositionValue()(d.positions[assetId]) == p.averagePrice * (p.size - quantity) by {
      if p.size == quantity {
        assert p.averagePrice * (p.size - quantity) == 0;
      }
    }
  }

  /** A sell: cash rises, the position shrinks, and rounding loses less than one unit of value. */
  lemma SellMoves(e: Engine, assetId: string, quantity: int, price: int)
    requires Shape(e) && 0 < price < SCALE && quantity > 0
    requires ApplySell(e, assetId, quantity, Notional(price, quantity), FeeOf(Notional(price, quantity), e.feeBps)).Ok?
    ensures var d := ApplySell(e, assetId, quantity, Notional(price, quantity), FeeOf(Notional(price, quantity), e.feeBps)).value;
      && assetId in e.positions && quantity <= e.positions[assetId].size
      && Shape(d)
      && d == e.(cash := d.cash, realizedPnl := d.realizedPnl, feesPaid := d.feesPaid, positions := d.positions)
      && d.cash >= e.cash
      && d.positions == e.positions[assetId := d.positions[assetId]]
      && Held(d, assetId) == Held(e, assetId) - quantity
      && d.positions[assetId].averagePrice <= e.positions[assetId].averagePrice
      && 0 <= Slack(d) - Slack(e) < SCALE
  {
    var notional := Notional(price, quantity);
    var fee := FeeOf(notional, e.feeBps);
    NotionalFacts(price, quantity);
    FeeFacts(notional, e.feeBps);
    SellParts(e, assetId, quantity, notional, fee);
    SoldSlack(e, assetId, quantity, notional, fee);
  }

  // ----- One fill -----

  lemma OthersReserveNonNegative(e: Engine)
    requires Shape(e)
    ensures forall id | id in e.orders :: OpenBuyReserve(e.feeBps)(e.orders[id]) >= 0
    ensures forall id, a | id in e.orders :: OpenSellSize(a)(e.orders[id]) >= 0
  {
    forall id | id in e.orders ensures OpenBuyReserve(e.feeBps)(e.orders[id]) >= 0 {
      var o := e.orders[id];
      if IsOpen(o.status) {
        ReserveNonNegative(o.intent.limitPrice, o.remainingSize, e.feeBps);
      }
    }
  }

  /** An open sell can always be delivered: the position is never what makes a planned sell fail. */
  lemma OpenSellDeliverable(e: Engine, id: string, k: nat)
    requires Inv(e, k) && id in e.orders && IsOpen(e.orders[id].status) && e.orders[id].intent.side.Sell?
    ensures var asset := e.orders[id].intent.assetId;
      asset in e.positions && e.orders[id].remainingSize <= e.positions[asset].size
  {
    var asset := e.orders[id].intent.assetId;
    OthersReserveNonNegative(e);
    MapSumNonNegative(e.orders, OpenSellSize(asset));
    assert OpenSells(e, asset) <= Held(e, asset);
    assert OpenSellSize(asset)(e.orders[id]) == e.orders[id].remainingSize;
  }

  /** What a fill did to its own order. */
  ghost predicate OrderFilledBy(o: Order, o': Order, quantity: int) {
    && o' == o.(filledSize := o.filledSize + quantity, remainingSize := o.remainingSize - quantity,
                feesPaid := o'.feesPaid, status := o'.status)
    && o'.status == (if o.remainingSize == quantity then Filled else PartiallyFilled)
    && o'.feesPaid >= o.feesPaid
  }

  function SoldOf(o: Order, assetId: string, quantity: int): int {
    if o.intent.side.Sell? && o.intent.assetId == assetId then quantity else 0
  }

  /** Reserved cash and reserved positions after an order's fill. */
  lemma FillReserves(e: Engine, orders': map<string, Order>, id: string, quantity: int)
    requires Shape(e) && id in e.orders && IsOpen(e.orders[id].status)
    requires id in orders' && orders' == e.orders[id := orders'[id]]
    requires 0 < quantity <= e.orders[id].remainingSize
    requires OrderFilledBy(e.orders[id], orders'[id], quantity)
    ensures var o := e.orders[id];
      var before, after := TotalReserved(e), TotalReserved(e.(orders := orders'));
      && (o.intent.side.Buy? ==>
          after <= before - Reserve(o.intent.limitPrice, quantity, e.feeBps)
                     + (if quantity < o.remainingSize then DriftBound(e.feeBps, 1) else 0))
      && (o.intent.side.Sell? ==> after == before)
      && (forall a :: OpenSells(e.(orders := orders'), a) == OpenSells(e, a) - SoldOf(o, a, quantity))
  {
    var o, o' := e.orders[id], orders'[id];
    MapSumUpdate(e.orders, id, o', OpenBuyReserve(e.feeBps));
    forall a ensures OpenSells(e.(orders := orders'), a) == OpenSells(e, a) - SoldOf(o, a, quantity) {
      MapSumUpdate(e.orders, id, o', OpenSellSize(a));
    }
    if o.intent.side.Buy? && quantity < o.remainingSize {
      ReserveDrift(o.intent.limitPrice, quantity, o.remainingSize, e.feeBps);
    }
  }

  lemma OrderFilled(o: Order, quantity: int, fee: int)
    requires FilledOrder(o, quantity, fee).Ok? && fee >= 0
    ensures OrderFilledBy(o, FilledOrder(o, quantity, fee).value, quantity)
  {
  }

  ghost predicate MovedBy(e: Engine, o: Order, quantity: int, price: int, moved: Engine) {
    var notional := Notional(price, quantity);
    var fee := FeeOf(notional, e.feeBps);
    (if o.intent.side.Buy? then ApplyBuy(e, o.intent.assetId, quantity, price, notional, fee)
     else ApplySell(e, o.intent.assetId, quantity, notional, fee)) == Ok(moved)
  }

  lemma FilledBuyKeepsInv(e: Engine, id: string, quantity: int, price: int, moved: Engine, filled: Order, k: nat)
    requires Inv(e, k) && id in e.orders && IsOpen(e.orders[id].status) && e.orders[id].intent.side.Buy?
    requires 0 < quantity <= e.orders[id].remainingSize && 0 < price < SCALE && price == e.orders[id].intent.limitPrice
    requires MovedBy(e, e.orders[id], quantity, price, moved) && OrderFilledBy(e.orders[id], filled, quantity)
    ensures var d := moved.(orders := moved.orders[id := filled]);
      && Inv(d, if filled.remainingSize != 0 then k + 1 else k) && d.orders == e.orders[id := filled]
      && d.feeBps == e.feeBps && d.participationBps == e.participationBps && d.startingCash == e.startingCash
      && 0 <= Slack(d) - Slack(e) < 3 * SCALE + Held(d, e.orders[id].intent.assetId)
  {
    FillReserves(e, e.orders[id := filled], id, quantity);
    BuyMoves(e, e.orders[id].intent.assetId, quantity, price);
    var d := moved.(orders := moved.orders[id := filled]);
    assert TotalReserved(d) == TotalReserved(e.(orders := e.orders[id := filled]));
    assert Slack(d) == Slack(moved);
    forall a ensures OpenSells(d, a) <= Held(d, a) {
      assert OpenSells(d, a) == OpenSells(e.(orders := e.orders[id := filled]), a);
      assert OpenSells(e, a) <= Held(e, a);
    }
  }

  lemma FilledSellKeepsInv(e: Engine, id: string, quantity: int, price: int, moved: Engine, filled: Order, k: nat)
    requires Inv(e, k) && id in e.orders && IsOpen(e.orders[id].status) && e.orders[id].intent.side.Sell?
    requires 0 < quantity <= e.orders[id].remainingSize && 0 < price < SCALE
    requires MovedBy(e, e.orders[id], quantity, price, moved) && OrderFilledBy(e.orders[id], filled, quantity)
    ensures var d := moved.(orders := moved.orders[id := filled]);
      && Inv(d, k) && d.orders == e.orders[id := filled]
      && d.feeBps == e.feeBps && d.participationBps == e.participationBps && d.startingCash == e.startingCash
      && 0 <= Slack(d) - Slack(e) < SCALE
  {
    FillReserves(e, e.orders[id := filled], id, quantity);
    SellMoves(e, e.orders[id].intent.assetId, quantity, price);
    var d := moved.(orders := moved.orders[id := filled]);
    assert TotalReserved(d) == TotalReserved(e.(orders := e.orders[id := filled]));
    assert Slack(d) == Slack(moved);
    forall a ensures OpenSells(d, a) <= Held(d, a) {
      assert OpenSells(d, a) == OpenSells(e.(orders := e.orders[id := filled]), a);
      assert OpenSells(e, a) <= Held(e, a);
    }
  }

  /**
   * A fill of an open order, at its limit price if it is a buy, keeps the invariant;
   * only a buy fill that leaves its order open may use up one more step of reserve drift.
   */
  lemma FillKeepsInv(e: Engine, id: string, quantity: int, price: int, now: nat, k: nat)
    requires Inv(e, k) && ApplyFillAtPrice(e, id, quantity, price, now).Ok?
    requires IsOpen(e.orders[id].status)
    requires e.orders[id].intent.side.Buy? ==> price == e.orders[id].intent.limitPrice
    ensures var (d, f) := ApplyFillAtPrice(e, id, quantity, price, now).value;
      && Inv(d, if f.side.Buy? && !f.terminal then k + 1 else k)
      && d.orders == e.orders[id := d.orders[id]]
      && OrderFilledBy(e.orders[id], d.orders[id], quantity)
      && d.feeBps == e.feeBps && d.participationBps == e.participationBps && d.startingCash == e.startingCash
      && 0 <= Slack(d) - Slack(e) < (if f.side.Buy? then 3 * SCALE + Held(d, f.assetId) else SCALE)
  {
    var moved, filled := FillParts(e, id, quantity, price, now);
    NotionalFacts(price, quantity);
    FeeFacts(Notional(price, quantity), e.feeBps);
    OrderFilled(e.orders[id], quantity, FeeOf(Notional(price, quantity), e.feeBps));
    if e.orders[id].intent.side.Buy? {
      FilledBuyKeepsInv(e, id, quantity, price, moved, filled, k);
    } else {
      FilledSellKeepsInv(e, id, quantity, price, moved, filled, k);
    }
  }
}
