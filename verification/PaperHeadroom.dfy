/** Free cash after a fill, and when a fill, a book update or a trade print is refused for lack of cash. */
module PaperHeadroom {
  import opened Prelude
  import opened Ordered
  import opened Sums
  import opened FixedPoint
  import opened Book
  import opened MarketEvents
  import opened PaperMath
  import opened PaperCore
  import opened PaperInvariant
  import opened PaperPlans
  import opened PaperOrders
  import opened PaperMatching
  import opened PaperTrades

  // ----- What a buy fill does to free cash -----

  /** Cash no open buy has a claim on; negative when reservations exceed cash. */
  ghost function Headroom(e: Engine): int {
    e.cash - TotalReserved(e)
  }

  /** What filling `quantity` of a buy with `remaining` open takes from free cash: computable before the fill. */
  function FillDrift(price: int, quantity: int, remaining: int, bps: nat): int {
    Reserve(price, quantity, bps) + (if quantity < remaining then Reserve(price, remaining - quantity, bps) else 0)
    - Reserve(price, remaining, bps)
  }

  lemma FillHeadroom(e: Engine, id: string, quantity: int, now: nat, k: nat)
    requires Inv(e, k) && id in e.orders && IsOpen(e.orders[id].status) && e.orders[id].intent.side.Buy?
    requires ApplyFillAtPrice(e, id, quantity, e.orders[id].intent.limitPrice, now).Ok?
    ensures var d := ApplyFillAtPrice(e, id, quantity, e.orders[id].intent.limitPrice, now).value.0;
      Headroom(d) == Headroom(e) - FillDrift(e.orders[id].intent.limitPrice, quantity, e.orders[id].remainingSize, e.feeBps)
  {
    hide ApplyFillAtPrice, ApplyBuy, ApplySell, Reserve, MapSum;
    var o := e.orders[id];
    var moved, filled := FillParts(e, id, quantity, o.intent.limitPrice, now);
    BuyMoves(e, o.intent.assetId, quantity, o.intent.limitPrice);
    NotionalFacts(o.intent.limitPrice, quantity);
    FeeFacts(Notional(o.intent.limitPrice, quantity), e.feeBps);
    OrderFilled(o, quantity, FeeOf(Notional(o.intent.limitPrice, quantity), e.feeBps));
    MapSumUpdate(e.orders, id, filled, OpenBuyReserve(e.feeBps));
  }

  /**
   * Reservations stay within cash after an open buy is filled at its limit exactly when the free cash before
   * covers what the split of its reservation costs: at most 3 units, and nothing for a fill that completes it.
   */
  lemma FillKeepsCover(e: Engine, id: string, quantity: int, now: nat, k: nat)
    requires Inv(e, k) && id in e.orders && IsOpen(e.orders[id].status) && e.orders[id].intent.side.Buy?
    requires ApplyFillAtPrice(e, id, quantity, e.orders[id].intent.limitPrice, now).Ok?
    ensures var d := ApplyFillAtPrice(e, id, quantity, e.orders[id].intent.limitPrice, now).value.0;
      var drift := FillDrift(e.orders[id].intent.limitPrice, quantity, e.orders[id].remainingSize, e.feeBps);
      && (TotalReserved(d) <= d.cash <==> drift <= e.cash - TotalReserved(e))
      && 0 <= drift <= (if quantity == e.orders[id].remainingSize then 0 else DriftBound(e.feeBps, 1))
  {
    hide ApplyFillAtPrice, Reserve;
    var o := e.orders[id];
    FillHeadroom(e, id, quantity, now, k);
    var moved, filled := FillParts(e, id, quantity, o.intent.limitPrice, now);
    if quantity < o.remainingSize {
      ReserveDrift(o.intent.limitPrice, quantity, o.remainingSize, e.feeBps);
    }
  }

  // ----- Room for the arithmetic -----

  /** Cash and book value together never exceed this. */
  function Wealth(e: Engine): int {
    e.startingCash + e.realizedPnl
  }

  function Abs(v: int): nat {
    if v < 0 then -v else v
  }

  predicate PositionRoom(p: Position, wealth: int, amount: int) {
    p.size + amount <= MAX && Abs(p.realizedPnl) + wealth + 2 * amount <= MAX
  }

  /** No amount the engine computes while filling `amount` in all leaves the 128-bit range. */
  ghost predicate Roomy(e: Engine, amount: int) {
    && amount >= 0 && e.startingCash <= MAX && (Wealth(e) + 2 * amount) * SCALE <= MAX && e.feesPaid + amount <= MAX
    && (forall a | a in e.positions :: PositionRoom(e.positions[a], Wealth(e), amount))
    && (forall id | id in e.orders :: e.orders[id].feesPaid + amount <= MAX)
  }

  lemma WithinWealth(e: Engine, assetId: string)
    requires Shape(e) && Slack(e) >= 0
    ensures 0 <= e.cash <= Wealth(e)
    ensures var p := PositionOrNew(e, assetId);
      0 <= p.averagePrice * p.size && e.cash * SCALE + p.averagePrice * p.size <= SCALE * Wealth(e)
  {
    forall a | a in e.positions ensures PositionValue()(e.positions[a]) >= 0 {
      assert PositionOk(a, e.positions[a]);
      MulNonNegative(e.positions[a].averagePrice, e.positions[a].size);
    }
    MapSumNonNegative(e.positions, PositionValue());
    if assetId in e.positions {
      assert PositionValue()(e.positions[assetId]) <= BookValue(e);
    }
  }

  /** The notional and the fee of a quantity that fits exist. */
  lemma AmountsExist(price: int, quantity: int, bps: nat)
    requires 0 < price < SCALE && 0 < quantity && quantity * SCALE <= MAX && bps <= 10_000
    ensures MulCeil(price, quantity) == Ok(Notional(price, quantity))
    ensures BpsAmount(Notional(price, quantity), bps) == Ok(FeeOf(Notional(price, quantity), bps))
    ensures 0 < Notional(price, quantity) <= quantity && 0 <= FeeOf(Notional(price, quantity), bps) <= Notional(price, quantity)
  {
    NotionalFacts(price, quantity);
    FeeFacts(Notional(price, quantity), bps);
    MulNonNegative(price, quantity);
    MulMonotone(price, SCALE, quantity);
    MulNonNegative(Notional(price, quantity), bps * 100);
    MulMonotone(bps * 100, SCALE, Notional(price, quantity));
    MulMonotone(Notional(price, quantity), quantity, SCALE);
    BpsAmountIsFee(Notional(price, quantity), bps);
  }

  /** With the intermediate amounts in range, cash decides a buy. */
  lemma BuyDecided(e: Engine, assetId: string, quantity: int, price: int, notional: int, fee: int)
    requires quantity > 0 && 0 <= fee <= notional && e.cash >= 0 && notional + fee <= MAX && InRange(e.cash)
    requires 0 <= e.feesPaid && e.feesPaid + fee <= MAX
    requires var p := PositionOrNew(e, assetId);
      && 0 <= p.size && p.size + quantity <= MAX && 0 <= p.averagePrice * p.size <= MAX && 0 <= price * quantity <= MAX
      && NewCost(p.averagePrice, p.size, price, quantity, fee) * SCALE <= MAX
    ensures var r := ApplyBuy(e, assetId, quantity, price, notional, fee);
      if notional + fee <= e.cash then r.Ok? else r == Err("paper_cash_changed_before_fill")
  {
    hide TruncDiv;
    var p := PositionOrNew(e, assetId);
    assert Mul(p.averagePrice, p.size) == Ok(TruncDiv(p.averagePrice * p.size, SCALE));
    assert Mul(price, quantity) == Ok(TruncDiv(price * quantity, SCALE));
    var cost := NewCost(p.averagePrice, p.size, price, quantity, fee);
    AverageInRange(cost, p.size + quantity);
  }

  lemma AverageInRange(cost: int, size: int)
    requires 0 <= cost && cost * SCALE <= MAX && size > 0
    ensures Div(cost, size).Ok?
  {
    var q := TruncDiv(cost * SCALE, size);
    MulMonotone(1, size, q);
  }

  lemma NewCostBound(average: int, size: int, price: int, quantity: int, fee: int, wealth: int)
    requires 0 <= average * size <= SCALE * wealth && 0 <= price * quantity <= SCALE * quantity && 0 <= fee <= quantity
    ensures 0 <= NewCost(average, size, price, quantity, fee) <= wealth + 2 * quantity
  {
  }

  /** With the intermediate amounts in range, a sell the position covers succeeds. */
  lemma SellSucceeds(e: Engine, assetId: string, quantity: int, notional: int, fee: int, wealth: int)
    requires assetId in e.positions && PositionOk(assetId, e.positions[assetId])
    requires 0 < quantity <= e.positions[assetId].size && 0 <= fee <= notional <= quantity
    requires 0 <= e.cash <= wealth == Wealth(e) && 0 < e.startingCash <= MAX && 0 <= e.feesPaid && e.feesPaid + fee <= MAX
    requires e.positions[assetId].averagePrice * e.positions[assetId].size + e.cash * SCALE <= SCALE * wealth
    requires (wealth + 2 * quantity) * SCALE <= MAX && PositionRoom(e.positions[assetId], wealth, quantity)
    ensures ApplySell(e, assetId, quantity, notional, fee).Ok?
  {
    hide TruncDiv;
    var p := e.positions[assetId];
    MulNonNegative(p.averagePrice, quantity);
    MulMonotone(quantity, p.size, p.averagePrice);
    assert Mul(p.averagePrice, quantity) == Ok(TruncDiv(p.averagePrice * quantity, SCALE));
    var basis := TruncDiv(p.averagePrice * quantity, SCALE);
    assert 0 <= basis <= wealth - e.cash;
  }

  // ----- One fill -----

  /** A buy fills at its limit, a sell there or better. */
  predicate AcceptablePrice(i: Intent, price: int) {
    if i.side.Buy? then price == i.limitPrice else i.limitPrice <= price < SCALE
  }

  /** A fill of an open order at an acceptable price, within what the arithmetic has room for. */
  ghost predicate Fillable(e: Engine, p: Plan, amount: int, k: nat) {
    && Inv(e, k) && Roomy(e, amount) && p.id in e.orders && IsOpen(e.orders[p.id].status)
    && 0 < p.quantity <= e.orders[p.id].remainingSize && p.quantity <= amount
    && AcceptablePrice(e.orders[p.id].intent, p.price)
  }

  lemma RoomFor(e: Engine, p: Plan, amount: int, k: nat)
    requires Fillable(e, p, amount, k)
    ensures p.quantity * SCALE <= MAX && (Wealth(e) + 2 * p.quantity) * SCALE <= MAX
    ensures 0 < p.price < SCALE && InRange(e.cash) && 0 <= e.cash <= Wealth(e)
  {
    WithinWealth(e, e.orders[p.id].intent.assetId);
  }

  /** Short of overflow, cash decides whether an open buy can be filled at its limit. */
  lemma BuyFillDecided(e: Engine, p: Plan, now: nat, amount: int, k: nat)
    requires Fillable(e, p, amount, k) && e.orders[p.id].intent.side.Buy?
    ensures var r := ApplyFillAtPrice(e, p.id, p.quantity, p.price, now);
      if Reserve(p.price, p.quantity, e.feeBps) <= e.cash then r.Ok? else r == Err("paper_cash_changed_before_fill")
  {
    hide ApplyBuy, MulCeil, BpsAmount, Notional, FeeOf, Inv;
    var o := e.orders[p.id];
    var asset := o.intent.assetId;
    RoomFor(e, p, amount, k);
    InvFacts(e, k);
    AmountsExist(p.price, p.quantity, e.feeBps);
    WithinWealth(e, asset);
    MulNonNegative(p.price, p.quantity);
    MulMonotone(p.price, SCALE, p.quantity);
    var position := PositionOrNew(e, asset);
    var fee := FeeOf(Notional(p.price, p.quantity), e.feeBps);
    NewCostBound(position.averagePrice, position.size, p.price, p.quantity, fee, Wealth(e));
    BuyDecided(e, asset, p.quantity, p.price, Notional(p.price, p.quantity), fee);
  }

  /** Short of overflow, an open sell can always be filled at its limit. */
  lemma SellFillSucceeds(e: Engine, p: Plan, now: nat, amount: int, k: nat)
    requires Fillable(e, p, amount, k) && e.orders[p.id].intent.side.Sell?
    ensures ApplyFillAtPrice(e, p.id, p.quantity, p.price, now).Ok?
  {
    hide ApplySell, MulCeil, BpsAmount, Notional, FeeOf;
    var o := e.orders[p.id];
    var asset := o.intent.assetId;
    RoomFor(e, p, amount, k);
    AmountsExist(p.price, p.quantity, e.feeBps);
    WithinWealth(e, asset);
    OpenSellDeliverable(e, p.id, k);
    SellSucceeds(e, asset, p.quantity, Notional(p.price, p.quantity), FeeOf(Notional(p.price, p.quantity), e.feeBps), Wealth(e));
  }

  /** Cash after a fill at the limit: a buy pays notional and fee, a sell receives notional less fee. */
  function CashAfter(cash: int, p: Plan, side: Side, bps: nat): int {
    if side.Buy? then cash - Reserve(p.price, p.quantity, bps)
    else cash + Notional(p.price, p.quantity) - FeeOf(Notional(p.price, p.quantity), bps)
  }

  lemma BuyLeavesRoom(e: Engine, p: Plan, now: nat, amount: int, k: nat)
    requires Fillable(e, p, amount, k) && e.orders[p.id].intent.side.Buy?
    requires ApplyFillAtPrice(e, p.id, p.quantity, p.price, now).Ok?
    ensures var d := ApplyFillAtPrice(e, p.id, p.quantity, p.price, now).value.0;
      Roomy(d, amount - p.quantity) && d.cash == CashAfter(e.cash, p, Buy, e.feeBps)
  {
    hide ApplyFillAtPrice, ApplyBuy, ApplySell, Reserve, Notional, FeeOf, Inv, NewAverage;
    InvFacts(e, k);
    var o := e.orders[p.id];
    var moved, filled := FillParts(e, p.id, p.quantity, p.price, now);
    RoomFor(e, p, amount, k);
    AmountsExist(p.price, p.quantity, e.feeBps);
    BuyParts(e, o.intent.assetId, p.quantity, p.price, Notional(p.price, p.quantity), FeeOf(Notional(p.price, p.quantity), e.feeBps));
    assert Reserve(p.price, p.quantity, e.feeBps) == Notional(p.price, p.quantity) + FeeOf(Notional(p.price, p.quantity), e.feeBps) by {
      ReserveIsCost(p.price, p.quantity, e.feeBps);
    }
  }

  lemma ReserveIsCost(price: int, quantity: int, bps: nat)
    ensures Reserve(price, quantity, bps) == Notional(price, quantity) + FeeOf(Notional(price, quantity), bps)
  {
  }

  /** A sell moves the wealth bound by what it realizes, at most the quantity sold. */
  lemma SoldWealth(e: Engine, assetId: string, quantity: int, notional: int, fee: int)
    requires assetId in e.positions && e.positions[assetId].averagePrice >= 0 && 0 < quantity && 0 <= fee <= notional <= quantity
    ensures var d := Sold(e, assetId, quantity, notional, fee);
      && Wealth(d) <= Wealth(e) + quantity
      && d.positions[assetId].realizedPnl - e.positions[assetId].realizedPnl == Wealth(d) - Wealth(e)
      && d.cash == e.cash + notional - fee && d.feesPaid == e.feesPaid + fee
  {
    hide TruncDiv;
    MulNonNegative(e.positions[assetId].averagePrice, quantity);
  }

  lemma SoldRoom(e: Engine, assetId: string, quantity: int, notional: int, fee: int, amount: int)
    requires assetId in e.positions && e.positions[assetId].averagePrice >= 0 && 0 < quantity <= amount
    requires 0 <= fee <= notional <= quantity && Roomy(e, amount)
    ensures Roomy(Sold(e, assetId, quantity, notional, fee), amount - quantity)
  {
    hide TruncDiv;
    SoldWealth(e, assetId, quantity, notional, fee);
  }

  lemma SellLeavesRoom(e: Engine, p: Plan, now: nat, amount: int, k: nat)
    requires Fillable(e, p, amount, k) && e.orders[p.id].intent.side.Sell?
    requires ApplyFillAtPrice(e, p.id, p.quantity, p.price, now).Ok?
    ensures var d := ApplyFillAtPrice(e, p.id, p.quantity, p.price, now).value.0;
      Roomy(d, amount - p.quantity) && d.cash == CashAfter(e.cash, p, Sell, e.feeBps)
  {
    hide ApplyFillAtPrice, ApplyBuy, ApplySell, Reserve, Notional, FeeOf, Inv, TruncDiv;
    InvFacts(e, k);
    var o := e.orders[p.id];
    var moved, filled := FillParts(e, p.id, p.quantity, p.price, now);
    RoomFor(e, p, amount, k);
    AmountsExist(p.price, p.quantity, e.feeBps);
    var notional := Notional(p.price, p.quantity);
    SellParts(e, o.intent.assetId, p.quantity, notional, FeeOf(notional, e.feeBps));
    SoldWealth(e, o.intent.assetId, p.quantity, notional, FeeOf(notional, e.feeBps));
    SoldRoom(e, o.intent.assetId, p.quantity, notional, FeeOf(notional, e.feeBps), amount);
  }

  // ----- A list of fills -----

  /** Every plan has a price its order accepts. */
  ghost predicate Acceptable(orders: map<string, Order>, plans: seq<Plan>) {
    forall p | p in plans :: p.id in orders && AcceptablePrice(orders[p.id].intent, p.price)
  }

  /** Each buy finds its cost in what the fills before it leave. */
  predicate Affordable(cash: int, plans: seq<Plan>, orders: map<string, Order>, bps: nat)
    requires forall p | p in plans :: p.id in orders
    decreases |plans|
  {
    plans == []
    || (var side := orders[plans[0].id].intent.side;
        && (side.Buy? ==> Reserve(plans[0].price, plans[0].quantity, bps) <= cash)
        && Affordable(CashAfter(cash, plans[0], side, bps), plans[1..], orders, bps))
  }

  function PlannedTotal(plans: seq<Plan>): int {
    if plans == [] then 0 else plans[0].quantity + PlannedTotal(plans[1..])
  }

  lemma {:induction false} TotalPositive(plans: seq<Plan>)
    requires forall p | p in plans :: p.quantity > 0
    ensures PlannedTotal(plans) >= 0
  {
    if plans != [] {
      assert plans[0] in plans;
      TotalPositive(plans[1..]);
    }
  }

  lemma {:induction false} AffordableSame(cash: int, plans: seq<Plan>, orders: map<string, Order>, orders': map<string, Order>, bps: nat)
    requires forall p | p in plans :: p.id in orders && p.id in orders' && orders'[p.id].intent == orders[p.id].intent
    ensures Affordable(cash, plans, orders, bps) <==> Affordable(cash, plans, orders', bps)
    decreases |plans|
  {
    if plans != [] {
      assert plans[0] in plans;
      AffordableSame(CashAfter(cash, plans[0], orders[plans[0].id].intent.side, bps), plans[1..], orders, orders', bps);
    }
  }

  /** What the first of several plans finds. */
  lemma FirstFillable(e: Engine, plans: seq<Plan>, amount: int, k: nat)
    requires plans != [] && Inv(e, k) && Ready(e.orders, plans) && Acceptable(e.orders, plans) && Roomy(e, amount)
    requires PlannedTotal(plans) <= amount
    ensures Fillable(e, plans[0], amount, k) && PlannedTotal(plans[1..]) <= amount - plans[0].quantity
  {
    hide Inv, Roomy;
    assert plans[0] in plans;
    TotalPositive(plans[1..]);
    PlannedForPositive(plans[1..], plans[0].id);
    assert PlannedFor(plans, plans[0].id) == plans[0].quantity + PlannedFor(plans[1..], plans[0].id);
  }

  lemma FirstDecided(e: Engine, p: Plan, now: nat, amount: int, k: nat)
    requires Fillable(e, p, amount, k)
    ensures var r := ApplyFillAtPrice(e, p.id, p.quantity, p.price, now);
      if e.orders[p.id].intent.side.Buy? ==> Reserve(p.price, p.quantity, e.feeBps) <= e.cash then
        r.Ok? && Roomy(r.value.0, amount - p.quantity) && r.value.0.cash == CashAfter(e.cash, p, e.orders[p.id].intent.side, e.feeBps)
        && Inv(r.value.0, k + 1) && r.value.0.feeBps == e.feeBps
      else r == Err("paper_cash_changed_before_fill")
  {
    hide ApplyFillAtPrice, Reserve, Roomy;
    if e.orders[p.id].intent.side.Buy? {
      BuyFillDecided(e, p, now, amount, k);
    } else {
      SellFillSucceeds(e, p, now, amount, k);
    }
    if ApplyFillAtPrice(e, p.id, p.quantity, p.price, now).Ok? {
      if e.orders[p.id].intent.side.Buy? {
        BuyLeavesRoom(e, p, now, amount, k);
      } else {
        SellLeavesRoom(e, p, now, amount, k);
      }
      FillKeepsInv(e, p.id, p.quantity, p.price, now, k);
    }
  }

  lemma AcceptableAfter(orders: map<string, Order>, orders': map<string, Order>, plans: seq<Plan>)
    requires plans != [] && Acceptable(orders, plans) && plans[0].id in orders
    requires plans[0].id in orders' && orders' == orders[plans[0].id := orders'[plans[0].id]]
    requires OrderFilledBy(orders[plans[0].id], orders'[plans[0].id], plans[0].quantity)
    ensures Acceptable(orders', plans[1..])
    ensures forall p | p in plans[1..] :: p in plans && p.id in orders && p.id in orders' && orders'[p.id].intent == orders[p.id].intent
  {
    forall p | p in plans[1..] ensures p in plans {
    }
  }

  /** Short of overflow, planned fills succeed exactly when each buy among them is affordable in its turn. */
  lemma {:induction false} PlansDecided(e: Engine, plans: seq<Plan>, now: nat, amount: int, k: nat)
    requires Inv(e, k) && Ready(e.orders, plans) && Acceptable(e.orders, plans) && Roomy(e, amount) && PlannedTotal(plans) <= amount
    ensures var r := ApplyPlans(e, plans, now, []);
      if Affordable(e.cash, plans, e.orders, e.feeBps) then r.Ok? else r == Err("paper_cash_changed_before_fill")
    decreases |plans|
  {
    hide ApplyFillAtPrice, Reserve, Roomy, Inv;
    if plans != [] {
      var p := plans[0];
      FirstFillable(e, plans, amount, k);
      FirstDecided(e, p, now, amount, k);
      var one := ApplyFillAtPrice(e, p.id, p.quantity, p.price, now);
      if one.Ok? {
        var next := one.value.0;
        InvFacts(e, k);
        var d, f := OneFill(e, p, now);
        ReadyAfter(e.orders, next.orders, plans);
        AcceptableAfter(e.orders, next.orders, plans);
        PlansDecided(next, plans[1..], now, amount - p.quantity, k + 1);
        AffordableSame(next.cash, plans[1..], e.orders, next.orders, e.feeBps);
        FillsAccumulate(next, plans[1..], now, [] + [one.value.1]);
      }
    }
  }

  /** What is left of the room after planned fills. */
  lemma {:induction false} PlansLeaveRoom(e: Engine, plans: seq<Plan>, now: nat, amount: int, k: nat)
    requires Inv(e, k) && Ready(e.orders, plans) && Acceptable(e.orders, plans) && Roomy(e, amount) && PlannedTotal(plans) <= amount
    requires ApplyPlans(e, plans, now, []).Ok?
    ensures Roomy(ApplyPlans(e, plans, now, []).value.0, amount - PlannedTotal(plans))
    decreases |plans|
  {
    hide ApplyFillAtPrice, Reserve, Roomy, Inv;
    if plans != [] {
      var p := plans[0];
      InvFacts(e, k);
      FirstFillable(e, plans, amount, k);
      FirstDecided(e, p, now, amount, k);
      var next, f := PlansHead(e, plans, now);
      AcceptableAfter(e.orders, next.orders, plans);
      PlansLeaveRoom(next, plans[1..], now, amount - p.quantity, k + 1);
    }
  }

  // ----- Reservations that are covered pay for every fill -----

  ghost predicate OncePlanned(plans: seq<Plan>) {
    forall i, j | 0 <= i < j < |plans| :: plans[i].id != plans[j].id
  }

  lemma ReserveMonotone(price: int, quantity: int, remaining: int, bps: nat)
    requires 0 < price < SCALE && 0 < quantity <= remaining && bps <= 10_000
    ensures 0 <= Reserve(price, quantity, bps) <= Reserve(price, remaining, bps)
  {
    hide Reserve;
    ReserveNonNegative(price, quantity, bps);
    if quantity < remaining {
      var rest := remaining - quantity;
      NotionalFacts(price, quantity);
      NotionalFacts(price, rest);
      assert price * remaining == price * quantity + price * rest;
      CeilDivSum(price * quantity, price * rest, SCALE);
      NotionalGrows(price, quantity, rest);
      FeeMonotone(Notional(price, quantity), Notional(price, remaining), bps);
      ReserveIsCost(price, quantity, bps);
      ReserveIsCost(price, remaining, bps);
    }
  }

  lemma NotionalGrows(price: int, quantity: int, rest: int)
    requires 0 < price && 0 < rest
    ensures Notional(price, quantity) <= Notional(price, quantity + rest)
  {
    assert price * (quantity + rest) == price * quantity + price * rest;
    MulNonNegative(price, rest);
    CeilDivMonotone(price * quantity, price * (quantity + rest), SCALE);
  }

  lemma FeeMonotone(a: int, b: int, bps: nat)
    requires 0 <= a <= b
    ensures FeeOf(a, bps) <= FeeOf(b, bps)
  {
    if bps > 0 {
      MulMonotone(a, b, bps * 100);
      CeilDivMonotone(a * (bps * 100), b * (bps * 100), SCALE);
    }
  }

  lemma ReservesNonNegative(orders: map<string, Order>, bps: nat)
    requires bps <= 10_000 && forall id | id in orders :: OrderOk(id, orders[id])
    ensures MapSum(orders, OpenBuyReserve(bps)) >= 0
  {
    hide Reserve, MapSum;
    forall id | id in orders ensures OpenBuyReserve(bps)(orders[id]) >= 0 {
      var o := orders[id];
      if IsOpen(o.status) {
        ReserveNonNegative(o.intent.limitPrice, o.remainingSize, bps);
      }
    }
    MapSumNonNegative(orders, OpenBuyReserve(bps));
  }

  /** The reservations of the orders that are planned, each once, pay for the plans. */
  lemma {:induction false} CoverAffords(cash: int, plans: seq<Plan>, orders: map<string, Order>, bps: nat)
    requires bps <= 10_000 && Acceptable(orders, plans) && OncePlanned(plans)
    requires forall id | id in orders :: OrderOk(id, orders[id])
    requires forall p | p in plans :: IsOpen(orders[p.id].status) && 0 < p.quantity <= orders[p.id].remainingSize
    requires MapSum(orders, OpenBuyReserve(bps)) <= cash
    ensures Affordable(cash, plans, orders, bps)
    decreases |plans|
  {
    hide Reserve, MapSum, Notional, FeeOf;
    if plans != [] {
      var p := plans[0];
      assert p in plans;
      var o := orders[p.id];
      var rest := orders - {p.id};
      MapSumRemove(orders, p.id, OpenBuyReserve(bps));
      ReserveMonotone(p.price, p.quantity, o.remainingSize, bps);
      NotionalFacts(p.price, p.quantity);
      FeeFacts(Notional(p.price, p.quantity), bps);
      forall q | q in plans[1..] ensures q in plans && q.id in rest {
      }
      ReservesNonNegative(rest, bps);
      CoverAffords(CashAfter(cash, p, o.intent.side, bps), plans[1..], rest, bps);
      AffordableSame(CashAfter(cash, p, o.intent.side, bps), plans[1..], rest, orders, bps);
    }
  }

  lemma OnceAppended(plans: seq<Plan>, p: Plan)
    requires OncePlanned(plans) && forall q | q in plans :: q.id != p.id
    ensures OncePlanned(plans + [p])
  {
  }

  lemma {:induction false} BookPlansOnce(p: BookPass, ids: seq<string>, book: BookState, now: nat)
    requires (forall id | id in ids :: id in p.orders) && Distinct(ids)
    requires OncePlanned(p.plans) && forall q | q in p.plans :: q.id !in ids
    ensures OncePlanned(PassForBook(p, ids, book, now).plans)
    decreases |ids|
  {
    hide BookVersion, Crosses, HasText;
    if ids != [] {
      assert ids[0] in ids && forall id | id in ids[1..] :: id in ids;
      var r := VisitForBook(p, ids[0], book, now);
      if r.plans != p.plans {
        OnceAppended(p.plans, r.plans[|p.plans|]);
      }
      BookPlansOnce(r, ids[1..], book, now);
    }
  }

  lemma {:induction false} TradePlansOnce(p: TradePass, ids: seq<string>, t: Print, now: nat)
    requires (forall id | id in ids :: id in p.orders) && Distinct(ids)
    requires OncePlanned(p.plans) && forall q | q in p.plans :: q.id !in ids
    ensures OncePlanned(PassForTrade(p, ids, t, now).plans)
    decreases |ids|
  {
    if ids != [] {
      assert ids[0] in ids && forall id | id in ids[1..] :: id in ids;
      var r := VisitForTrade(p, ids[0], t, now);
      if r.plans != p.plans {
        OnceAppended(p.plans, r.plans[|p.plans|]);
      }
      TradePlansOnce(r, ids[1..], t, now);
    }
  }

  // ----- A book update -----

  lemma {:induction false} TotalBySide(plans: seq<Plan>, orders: map<string, Order>)
    requires forall p | p in plans :: p.id in orders
    ensures PlannedTotal(plans) == PlannedOn(plans, orders, Buy) + PlannedOn(plans, orders, Sell)
  {
    if plans != [] {
      assert plans[0] in plans;
      TotalBySide(plans[1..], orders);
    }
  }

  /** All fills a book update may make together. */
  function BookShares(book: BookState, bps: nat): int {
    Share(book.asks, bps) + Share(book.bids, bps)
  }

  /** The plans of a book update, and the engine they run on. */
  lemma BookPlans(e: Engine, book: BookState, now: nat, k: nat) returns (pass: BookPass)
    requires Inv(e, k) && BookPassOf(e, book, now).Ok?
    ensures BookPassOf(e, book, now) == Ok(pass) && OncePlanned(pass.plans) && Acceptable(e.orders, pass.plans)
    ensures forall p | p in pass.plans :: IsOpen(e.orders[p.id].status) && 0 < p.quantity <= e.orders[p.id].remainingSize
    ensures Inv(Staged(e, pass), k) && Ready(Staged(e, pass).orders, pass.plans) && Staged(e, pass).orders.Keys == e.orders.Keys
    ensures forall id | id in e.orders ::
      Staged(e, pass).orders[id].intent == e.orders[id].intent && Staged(e, pass).orders[id].feesPaid == e.orders[id].feesPaid
    ensures PlannedTotal(pass.plans) <= BookShares(book, e.participationBps)
  {
    hide Share, MapSum, PassForBook, Reserve, BookVersion, SortedKeys;
    pass := BookPassOf(e, book, now).value;
    var buy := Liquidity(book, book.asks, e.participationBps).value;
    var sell := Liquidity(book, book.bids, e.participationBps).value;
    FullPassOk(e, book, now, buy, sell);
    StagedReady(e, book, now, buy, sell, k);
    BookPassOnce(e, book, now, buy, sell);
    BudgetBound(e.orders, pass, book, e.participationBps, Buy);
    BudgetBound(e.orders, pass, book, e.participationBps, Sell);
    TotalBySide(pass.plans, e.orders);
  }

  lemma BookPassOnce(e: Engine, book: BookState, now: nat, buy: int, sell: int)
    ensures OncePlanned(FullPass(e, book, now, buy, sell).plans)
  {
    SortedKeysDistinct(e.orders.Keys);
    BookPlansOnce(BookPass(e.orders, [], [], buy, sell), SortedKeys(e.orders.Keys), book, now);
  }

  /**
   * When a book update of an engine succeeds: short of overflow, exactly when every buy it fills finds its cost in the cash
   * that the fills before it leave. Otherwise the whole update is refused.
   */
  lemma BookDecided(e: Engine, book: BookState, now: nat, k: nat)
    requires Inv(e, k) && BookPassOf(e, book, now).Ok? && Roomy(e, BookShares(book, e.participationBps))
    ensures var plans := BookPassOf(e, book, now).value.plans;
      && (forall p | p in plans :: p.id in e.orders)
      && var r := ProcessBook(e, book, now);
      if Affordable(e.cash, plans, e.orders, e.feeBps) then r.Ok? else r == Err("paper_cash_changed_before_fill")
  {
    hide Inv, Ready, BookShares, Affordable, ApplyPlans;
    var pass := BookPlans(e, book, now, k);
    var staged := Staged(e, pass);
    AffordableSame(e.cash, pass.plans, e.orders, staged.orders, e.feeBps);
    PlansDecided(staged, pass.plans, now, BookShares(book, e.participationBps), k);
    BookOutcomeIsRun(e, book, now);
  }

  lemma BookOutcomeIsRun(e: Engine, book: BookState, now: nat)
    requires BookPassOf(e, book, now).Ok?
    ensures var pass := BookPassOf(e, book, now).value;
      var run := ApplyPlans(Staged(e, pass), pass.plans, now, []);
      if run.Ok? then ProcessBook(e, book, now).Ok? else ProcessBook(e, book, now) == Err(run.error)
  {
    hide ApplyPlans, PassForBook;
  }

  /** While reservations are within cash, no book update is refused for lack of cash. */
  lemma CoveredBookSucceeds(e: Engine, book: BookState, now: nat, k: nat)
    requires Inv(e, k) && TotalReserved(e) <= e.cash
    requires BookPassOf(e, book, now).Ok? && Roomy(e, BookShares(book, e.participationBps))
    ensures ProcessBook(e, book, now).Ok?
  {
    hide ProcessBook, BookPassOf, Affordable, MapSum, Roomy;
    var pass := BookPlans(e, book, now, k);
    CoverAffords(e.cash, pass.plans, e.orders, e.feeBps);
    BookDecided(e, book, now, k);
  }

  // ----- A trade print -----

  function PlannedCost(plans: seq<Plan>, bps: nat): int {
    if plans == [] then 0 else Reserve(plans[0].price, plans[0].quantity, bps) + PlannedCost(plans[1..], bps)
  }

  /** Buys alone are affordable exactly when their costs together are. */
  lemma {:induction false} BuysAffordable(cash: int, plans: seq<Plan>, orders: map<string, Order>, bps: nat)
    requires cash >= 0 && bps <= 10_000
    requires forall p | p in plans :: p.id in orders && orders[p.id].intent.side.Buy? && 0 < p.price < SCALE && p.quantity > 0
    ensures Affordable(cash, plans, orders, bps) <==> PlannedCost(plans, bps) <= cash
    ensures PlannedCost(plans, bps) >= 0
    decreases |plans|
  {
    hide Reserve;
    if plans != [] {
      var p := plans[0];
      assert p in plans;
      ReserveNonNegative(p.price, p.quantity, bps);
      var left := cash - Reserve(p.price, p.quantity, bps);
      BuysAffordable(if left >= 0 then left else 0, plans[1..], orders, bps);
    }
  }

  lemma {:induction false} SellsAffordable(cash: int, plans: seq<Plan>, orders: map<string, Order>, bps: nat)
    requires forall p | p in plans :: p.id in orders && orders[p.id].intent.side.Sell?
    ensures Affordable(cash, plans, orders, bps)
    decreases |plans|
  {
    if plans != [] {
      assert plans[0] in plans;
      SellsAffordable(CashAfter(cash, plans[0], Sell, bps), plans[1..], orders, bps);
    }
  }

  /** The plans of a print, and the engine they run on. */
  lemma PrintPlans(e: Engine, t: Print, now: nat, liquidity: int, k: nat) returns (pass: TradePass)
    requires Inv(e, k) && liquidity >= 0
    ensures pass == TradePassOf(e, t, now, liquidity) && OncePlanned(pass.plans) && Acceptable(e.orders, pass.plans)
    ensures forall p | p in pass.plans :: PlanEligible(e.orders, p, t, now)
    ensures Inv(e.(orders := pass.orders), k) && Ready(pass.orders, pass.plans) && Acceptable(pass.orders, pass.plans)
    ensures OnlyTimed(e.orders, pass.orders) && PositivePlans(pass.plans) == pass.plans
    ensures PlannedTotal(pass.plans) <= liquidity
  {
    hide MapSum, PassForTrade, SortedKeys;
    pass := TradePassOf(e, t, now, liquidity);
    TradePassReady(e, t, now, liquidity, k);
    TradePassOnce(e, t, now, liquidity);
    AllOnSide(pass.plans, e.orders, t.restingSide);
  }

  lemma {:induction false} AllOnSide(plans: seq<Plan>, orders: map<string, Order>, side: Side)
    requires forall p | p in plans :: p.id in orders && orders[p.id].intent.side == side
    ensures PlannedTotal(plans) == PlannedOn(plans, orders, side)
  {
    if plans != [] {
      assert plans[0] in plans;
      AllOnSide(plans[1..], orders, side);
    }
  }

  lemma TradePassOnce(e: Engine, t: Print, now: nat, liquidity: int)
    ensures OncePlanned(TradePassOf(e, t, now, liquidity).plans)
  {
    SortedKeysDistinct(e.orders.Keys);
    TradePlansOnce(TradePass(e.orders, [], liquidity), SortedKeys(e.orders.Keys), t, now);
  }

  /** Executing a print's plans: sells always, buys exactly when cash covers all of them. */
  lemma PrintPlansDecided(e: Engine, t: Print, now: nat, liquidity: int, k: nat)
    requires Inv(e, k) && liquidity >= 0 && Roomy(e, liquidity)
    ensures var pass := TradePassOf(e, t, now, liquidity);
      var r := ApplyPlans(e.(orders := pass.orders), PositivePlans(pass.plans), now, []);
      if t.restingSide.Sell? || PlannedCost(pass.plans, e.feeBps) <= e.cash then r.Ok? else r == Err("paper_cash_changed_before_fill")
  {
    hide Inv, Ready, ApplyPlans, Reserve, PassForTrade, SortedKeys;
    InvFacts(e, k);
    var pass := PrintPlans(e, t, now, liquidity, k);
    var timed := e.(orders := pass.orders);
    PlansDecided(timed, pass.plans, now, liquidity, k);
    AffordableSame(e.cash, pass.plans, e.orders, pass.orders, e.feeBps);
    if t.restingSide.Sell? {
      SellsAffordable(e.cash, pass.plans, e.orders, e.feeBps);
    } else {
      BuysAffordable(e.cash, pass.plans, e.orders, e.feeBps);
    }
  }

  /** A print that can fill something: a price in range, a positive size, a known aggressor, a share that exists. */
  predicate Fills(e: Engine, price: int, size: Option<int>, aggressor: Option<Side>) {
    0 < price < SCALE && size.Some? && size.value > 0 && aggressor.Some? && ParticipationAmount(size.value, e.participationBps).Ok?
  }

  function PrintPlansOf(e: Engine, assetId: string, price: int, size: int, aggressor: Side, timestamp: nat, now: nat): seq<Plan>
    requires ParticipationAmount(size, e.participationBps).Ok?
  {
    var t := Print(assetId, price, if aggressor.Buy? then Sell else Buy, timestamp);
    TradePassOf(e, t, now, ParticipationAmount(size, e.participationBps).value).plans
  }

  /**
   * When a print succeeds: short of overflow, always if it fills sells, and if it fills buys exactly when cash covers all
   * their costs together. Otherwise the whole print is refused.
   */
  lemma PrintDecided(e: Engine, assetId: string, price: int, size: Option<int>, aggressor: Option<Side>, timestamp: nat, now: nat, k: nat)
    requires Inv(e, k) && Fills(e, price, size, aggressor) && Roomy(e, size.value * e.participationBps / 10_000)
    ensures var plans := PrintPlansOf(e, assetId, price, size.value, aggressor.value, timestamp, now);
      var r := ProcessTrade(e, assetId, price, size, aggressor, timestamp, now);
      if aggressor.value.Buy? || PlannedCost(plans, e.feeBps) <= e.cash then r.Ok? else r == Err("paper_cash_changed_before_fill")
  {
    hide Inv, Roomy, ApplyPlans, Reserve, PassForTrade, SortedKeys;
    var t := Print(assetId, price, if aggressor.value.Buy? then Sell else Buy, timestamp);
    ParticipationIsFloor(size.value, e.participationBps);
    PrintPlansDecided(e, t, now, ParticipationAmount(size.value, e.participationBps).value, k);
  }

  /** While reservations are within cash, no print is refused for lack of cash. */
  lemma CoveredPrintSucceeds(e: Engine, assetId: string, price: int, size: Option<int>, aggressor: Option<Side>, timestamp: nat, now: nat, k: nat)
    requires Inv(e, k) && TotalReserved(e) <= e.cash
    requires Fills(e, price, size, aggressor) && Roomy(e, size.value * e.participationBps / 10_000)
    ensures ProcessTrade(e, assetId, price, size, aggressor, timestamp, now).Ok?
  {
    hide ProcessTrade, PassForTrade, SortedKeys, Reserve, MapSum, Roomy;
    PrintDecided(e, assetId, price, size, aggressor, timestamp, now, k);
    if aggressor.value.Sell? {
      var t := Print(assetId, price, Buy, timestamp);
      var liquidity := ParticipationAmount(size.value, e.participationBps).value;
      ParticipationIsFloor(size.value, e.participationBps);
      var pass := PrintPlans(e, t, now, liquidity, k);
      CoverAffords(e.cash, pass.plans, e.orders, e.feeBps);
      BuysAffordable(e.cash, pass.plans, e.orders, e.feeBps);
    }
  }
}
