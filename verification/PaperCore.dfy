/**
 * The paper matching engine as functions on `Engine`, the value its state denotes; class `PaperEngine`
 * performs them in place. Callers work on a clone and drop it on `Err`, so only successes are states.
 */
module PaperCore {
  import opened Prelude
  import opened Ordered
  import opened FixedPoint
  import opened Book
  import opened MarketEvents
  import opened Decimal

  datatype Status = Intended | WrittenAhead | Submitted | Acknowledged | PartiallyFilled | Filled
    | CancelRequested | Cancelled | Rejected | Unknown

  predicate IsOpen(s: Status) {
    s.Submitted? || s.Acknowledged? || s.PartiallyFilled?
  }

  datatype Intent = Intent(assetId: string, side: Side, limitPrice: int, size: int, expiresAt: nat)

  datatype Order = Order(
    clientOrderId: string, intent: Intent, status: Status, submittedAt: Option<nat>, filledSize: int,
    remainingSize: int, feesPaid: int, lastBookVersion: Option<string>, lastTradeTimestamp: Option<nat>)

  datatype Position = Position(assetId: string, size: int, averagePrice: int, realizedPnl: int)

  datatype Fill = Fill(
    clientOrderId: string, assetId: string, side: Side, price: int, size: int, notional: int, fee: int,
    filledAt: nat, terminal: bool)

  datatype Engine = Engine(
    startingCash: int, cash: int, realizedPnl: int, feesPaid: int, feeBps: nat, participationBps: nat,
    positions: map<string, Position>, orders: map<string, Order>)

  // ----- Small helpers -----

  function ParticipationAmount(liquidity: int, bps: nat): Result<int> {
    Mul(liquidity, bps * 100)
  }

  function BpsAmount(value: int, bps: nat): Result<int> {
    if bps == 0 then Ok(0) else MulCeil(value, bps * 100)
  }

  function BuyReserve(price: int, size: int, feeBps: nat): Result<int> {
    var notional :- MulCeil(price, size);
    var fee :- BpsAmount(notional, feeBps);
    Add(notional, fee)
  }

  function TopSize(levels: seq<Level>): int {
    if levels == [] then 0 else levels[0].size
  }

  predicate Crosses(intent: Intent, book: BookState) {
    match intent.side
    case Buy => book.bestAsk.Some? && book.bestAsk.value <= intent.limitPrice
    case Sell => book.bestBid.Some? && book.bestBid.value >= intent.limitPrice
  }

  function BookVersion(book: BookState): string {
    Digits(book.exchangeTimestamp) + ":" + (if book.hash.Some? then book.hash.value else "")
  }

  // ----- Construction and validation -----

  function NewEngine(startingCash: int, feeBps: nat, participationBps: nat): Result<Engine> {
    if startingCash <= 0 then Err("paper_starting_cash_must_be_positive")
    else if feeBps > 10_000 || participationBps == 0 || participationBps > 10_000 then
      Err("paper_basis_points_out_of_range")
    else Ok(Engine(startingCash, startingCash, 0, 0, feeBps, participationBps, map[], map[]))
  }

  predicate ConfigurationMatches(e: Engine, startingCash: int, feeBps: nat, participationBps: nat) {
    e.startingCash == startingCash && e.feeBps == feeBps && e.participationBps == participationBps
  }

  predicate TotalsValid(e: Engine) {
    e.startingCash > 0 && e.cash >= 0 && e.feeBps <= 10_000 && 0 < e.participationBps <= 10_000 && e.feesPaid >= 0
  }

  predicate PositionValid(assetId: string, p: Position) {
    p.assetId == assetId && p.size >= 0 && 0 <= p.averagePrice <= SCALE
  }

  predicate OrderValid(clientOrderId: string, o: Order) {
    o.clientOrderId == clientOrderId && o.filledSize >= 0 && o.remainingSize >= 0 && o.feesPaid >= 0
    && Add(o.filledSize, o.remainingSize) == Ok(o.intent.size)
  }

  function ValidateState(e: Engine): Result<()> {
    if !TotalsValid(e) then Err("paper_transition_engine_totals_invalid")
    else if exists a | a in e.positions :: !PositionValid(a, e.positions[a]) then
      Err("paper_transition_position_invalid")
    else if exists id | id in e.orders :: !OrderValid(id, e.orders[id]) then Err("paper_transition_order_invalid")
    else Ok(())
  }

  predicate UsesOnlyAssets(e: Engine, configured: set<string>) {
    e.positions.Keys <= configured && forall id | id in e.orders :: e.orders[id].intent.assetId in configured
  }

  // ----- Reservations -----

  /** Left-to-right checked sum of the reservations of the open buys among `ids`. */
  function ReservedCash(ids: seq<string>, orders: map<string, Order>, feeBps: nat, total: int): Result<int>
    requires forall id | id in ids :: id in orders
    decreases |ids|
  {
    if ids == [] then Ok(total)
    else
      var o := orders[ids[0]];
      if IsOpen(o.status) && o.intent.side.Buy? then
        var reserve :- BuyReserve(o.intent.limitPrice, o.remainingSize, feeBps);
        var next :- Add(total, reserve);
        ReservedCash(ids[1..], orders, feeBps, next)
      else ReservedCash(ids[1..], orders, feeBps, total)
  }

  function AvailableCash(e: Engine): Result<int> {
    var reserved :- ReservedCash(SortedKeys(e.orders.Keys), e.orders, e.feeBps, 0);
    var available :- Sub(e.cash, reserved);
    if available < 0 then Err("paper_reserved_cash_invariant_broken") else Ok(available)
  }

  predicate OpenSellOf(o: Order, assetId: string) {
    IsOpen(o.status) && o.intent.side.Sell? && o.intent.assetId == assetId
  }

  function ReservedPosition(ids: seq<string>, orders: map<string, Order>, assetId: string, total: int): Result<int>
    requires forall id | id in ids :: id in orders
    decreases |ids|
  {
    if ids == [] then Ok(total)
    else
      var o := orders[ids[0]];
      if OpenSellOf(o, assetId) then
        var next :- Add(total, o.remainingSize);
        ReservedPosition(ids[1..], orders, assetId, next)
      else ReservedPosition(ids[1..], orders, assetId, total)
  }

  function Held(e: Engine, assetId: string): int {
    if assetId in e.positions then e.positions[assetId].size else 0
  }

  function AvailablePosition(e: Engine, assetId: string): Result<int> {
    var reserved :- ReservedPosition(SortedKeys(e.orders.Keys), e.orders, assetId, 0);
    var available :- Sub(Held(e, assetId), reserved);
    if available < 0 then Err("paper_reserved_position_invariant_broken") else Ok(available)
  }

  // ----- Submit and cancel -----

  function RestingOrder(intent: Intent, id: string, now: nat, version: Option<string>): Order {
    Order(id, intent, Acknowledged, Some(now), 0, intent.size, 0, version, None)
  }

  function Submit(e: Engine, intent: Intent, id: string, now: nat): Result<Engine> {
    if id in e.orders then Err("duplicate_paper_client_order_id")
    else if intent.expiresAt <= now then Err("expired_paper_intent")
    else
      var reserve :- BuyReserve(intent.limitPrice, intent.size, e.feeBps);
      var available :- if intent.side.Buy? then AvailableCash(e) else AvailablePosition(e, intent.assetId);
      if intent.side.Buy? && reserve > available then Err("paper_insufficient_available_cash")
      else if intent.side.Sell? && intent.size > available then Err("paper_insufficient_available_position")
      else Ok(e.(orders := e.orders[id := RestingOrder(intent, id, now, None)]))
  }

  function CancelOrder(orders: map<string, Order>, id: string): map<string, Order> {
    if id in orders && IsOpen(orders[id].status) then orders[id := orders[id].(status := Cancelled)] else orders
  }

  function CancelIds(orders: map<string, Order>, ids: seq<string>): map<string, Order>
    decreases |ids|
  {
    if ids == [] then orders else CancelIds(CancelOrder(orders, ids[0]), ids[1..])
  }

  /** The ids, in key order, that a bulk cancellation selects. */
  function Selected(ids: seq<string>, orders: map<string, Order>, chosen: Order -> bool): seq<string>
    requires forall id | id in ids :: id in orders
  {
    if ids == [] then []
    else (if chosen(orders[ids[0]]) then [ids[0]] else []) + Selected(ids[1..], orders, chosen)
  }

  function OpenOrders(): Order -> bool {
    (o: Order) => IsOpen(o.status)
  }

  function OpenExpired(now: nat): Order -> bool {
    (o: Order) => IsOpen(o.status) && o.intent.expiresAt <= now
  }

  function OpenOn(assetId: string): Order -> bool {
    (o: Order) => IsOpen(o.status) && o.intent.assetId == assetId
  }

  function CancelWhere(e: Engine, chosen: Order -> bool): (Engine, seq<string>) {
    var ids := Selected(SortedKeys(e.orders.Keys), e.orders, chosen);
    (e.(orders := CancelIds(e.orders, ids)), ids)
  }

  function Pruned(e: Engine): Engine {
    e.(orders := map id | id in e.orders && IsOpen(e.orders[id].status) :: e.orders[id])
  }

  // ----- Fills -----

  function ApplyBuy(e: Engine, assetId: string, quantity: int, price: int, notional: int, fee: int): Result<Engine> {
    var totalCost :- Add(notional, fee);
    if totalCost > e.cash then Err("paper_cash_changed_before_fill")
    else
      var cash :- Sub(e.cash, totalCost);
      var feesPaid :- Add(e.feesPaid, fee);
      var p := if assetId in e.positions then e.positions[assetId] else Position(assetId, 0, 0, 0);
      var existingCost :- Mul(p.averagePrice, p.size);
      var newSize :- Add(p.size, quantity);
      var bought :- Mul(price, quantity);
      var withBought :- Add(existingCost, bought);
      var newCost :- Add(withBought, fee);
      var average :- Div(newCost, newSize);
      Ok(e.(cash := cash, feesPaid := feesPaid,
            positions := e.positions[assetId := p.(size := newSize, averagePrice := average)]))
  }

  function ApplySell(e: Engine, assetId: string, quantity: int, notional: int, fee: int): Result<Engine> {
    if assetId !in e.positions then Err("paper_sell_without_position")
    else
      var p := e.positions[assetId];
      if quantity > p.size then Err("paper_sell_exceeds_position")
      else
        var basis :- Mul(p.averagePrice, quantity);
        var proceeds :- Sub(notional, fee);
        var realized :- Sub(proceeds, basis);
        var cash :- Add(e.cash, proceeds);
        var total :- Add(e.realizedPnl, realized);
        var feesPaid :- Add(e.feesPaid, fee);
        var ofPosition :- Add(p.realizedPnl, realized);
        var size :- Sub(p.size, quantity);
        Ok(e.(cash := cash, realizedPnl := total, feesPaid := feesPaid,
              positions := e.positions[assetId :=
                p.(size := size, averagePrice := if size == 0 then 0 else p.averagePrice, realizedPnl := ofPosition)]))
  }

  function FilledOrder(o: Order, quantity: int, fee: int): Result<Order> {
    var filled :- Add(o.filledSize, quantity);
    var remaining :- Sub(o.remainingSize, quantity);
    var fees :- Add(o.feesPaid, fee);
    Ok(o.(filledSize := filled, remainingSize := remaining, feesPaid := fees,
          status := if remaining == 0 then Filled else PartiallyFilled))
  }

  function ApplyFillAtPrice(e: Engine, id: string, quantity: int, price: int, now: nat): Result<(Engine, Fill)> {
    if id !in e.orders then Err("paper_order_not_found")
    else
      var o := e.orders[id];
      var i := o.intent;
      if quantity <= 0 || quantity > o.remainingSize then Err("paper_fill_quantity_out_of_range")
      else if price <= 0 || price >= SCALE || (if i.side.Buy? then price > i.limitPrice else price < i.limitPrice) then
        Err("paper_fill_price_violates_limit")
      else
        var notional :- MulCeil(price, quantity);
        var fee :- BpsAmount(notional, e.feeBps);
        var moved :- if i.side.Buy? then ApplyBuy(e, i.assetId, quantity, price, notional, fee)
                     else ApplySell(e, i.assetId, quantity, notional, fee);
        var filled :- FilledOrder(o, quantity, fee);
        Ok((moved.(orders := moved.orders[id := filled]),
            Fill(id, i.assetId, i.side, price, quantity, notional, fee, now, filled.remainingSize == 0)))
  }

  /** A planned fill: order id, quantity and price. */
  datatype Plan = Plan(id: string, quantity: int, price: int)

  function ApplyPlans(e: Engine, plans: seq<Plan>, now: nat, fills: seq<Fill>): Result<(Engine, seq<Fill>)>
    decreases |plans|
  {
    if plans == [] then Ok((e, fills))
    else
      var (next, fill) :- ApplyFillAtPrice(e, plans[0].id, plans[0].quantity, plans[0].price, now);
      ApplyPlans(next, plans[1..], now, fills + [fill])
  }

  // ----- Matching against a book -----

  datatype BookPass = BookPass(
    orders: map<string, Order>, expired: seq<string>, plans: seq<Plan>, buyLiquidity: int, sellLiquidity: int)

  function VisitForBook(p: BookPass, id: string, book: BookState, now: nat): (r: BookPass)
    requires id in p.orders
    ensures r.orders.Keys == p.orders.Keys
  {
    var o := p.orders[id];
    if !IsOpen(o.status) || o.intent.assetId != book.assetId then p
    else if o.intent.expiresAt <= now then p.(expired := p.expired + [id])
    else if !book.tradeable || !HasText(book.hash) || o.lastBookVersion == Some(BookVersion(book)) then p
    else
      var seen := p.(orders := p.orders[id := o.(lastBookVersion := Some(BookVersion(book)))]);
      var quantity := Min(o.remainingSize, if o.intent.side.Buy? then p.buyLiquidity else p.sellLiquidity);
      if !Crosses(o.intent, book) || quantity <= 0 then seen
      else
        var planned := seen.(plans := p.plans + [Plan(id, quantity, o.intent.limitPrice)]);
        if o.intent.side.Buy? then planned.(buyLiquidity := p.buyLiquidity - quantity)
        else planned.(sellLiquidity := p.sellLiquidity - quantity)
  }

  function PassForBook(p: BookPass, ids: seq<string>, book: BookState, now: nat): (r: BookPass)
    requires forall id | id in ids :: id in p.orders
    ensures r.orders.Keys == p.orders.Keys
    decreases |ids|
  {
    if ids == [] then p else PassForBook(VisitForBook(p, ids[0], book, now), ids[1..], book, now)
  }

  /** Fills and expired ids of one book update. */
  function ProcessBook(e: Engine, book: BookState, now: nat): Result<(Engine, seq<Fill>, seq<string>)> {
    var buyLiquidity :- if book.tradeable then ParticipationAmount(TopSize(book.asks), e.participationBps) else Ok(0);
    var sellLiquidity :- if book.tradeable then ParticipationAmount(TopSize(book.bids), e.participationBps) else Ok(0);
    var pass := PassForBook(BookPass(e.orders, [], [], buyLiquidity, sellLiquidity), SortedKeys(e.orders.Keys), book, now);
    var (after, fills) :- ApplyPlans(e.(orders := CancelIds(pass.orders, pass.expired)), pass.plans, now, []);
    Ok((after, fills, pass.expired))
  }

  // ----- Matching against a trade print -----

  datatype TradePass = TradePass(orders: map<string, Order>, plans: seq<Plan>, liquidity: int)

  datatype Print = Print(assetId: string, price: int, restingSide: Side, timestamp: nat)

  predicate SeenBefore(o: Order, timestamp: nat) {
    (o.submittedAt.Some? && timestamp <= o.submittedAt.value)
    || (o.lastTradeTimestamp.Some? && timestamp <= o.lastTradeTimestamp.value)
  }

  predicate TradedThrough(i: Intent, price: int) {
    if i.side.Buy? then price <= i.limitPrice else price >= i.limitPrice
  }

  function VisitForTrade(p: TradePass, id: string, t: Print, now: nat): (r: TradePass)
    requires id in p.orders
    ensures r.orders.Keys == p.orders.Keys
  {
    var o := p.orders[id];
    if !IsOpen(o.status) || o.intent.assetId != t.assetId then p
    else if o.intent.side != t.restingSide || p.liquidity == 0 then p
    else if o.intent.expiresAt <= now then p
    else if SeenBefore(o, t.timestamp) then p
    else
      var seen := p.(orders := p.orders[id := o.(lastTradeTimestamp := Some(t.timestamp))]);
      if !TradedThrough(o.intent, t.price) then seen
      else
        var quantity := Min(o.remainingSize, p.liquidity);
        seen.(plans := p.plans + [Plan(id, quantity, o.intent.limitPrice)], liquidity := p.liquidity - quantity)
  }

  function PassForTrade(p: TradePass, ids: seq<string>, t: Print, now: nat): (r: TradePass)
    requires forall id | id in ids :: id in p.orders
    ensures r.orders.Keys == p.orders.Keys
    decreases |ids|
  {
    if ids == [] then p else PassForTrade(VisitForTrade(p, ids[0], t, now), ids[1..], t, now)
  }

  function PositivePlans(plans: seq<Plan>): seq<Plan> {
    if plans == [] then []
    else (if plans[0].quantity > 0 then [plans[0]] else []) + PositivePlans(plans[1..])
  }

  function ProcessTrade(e: Engine, assetId: string, price: int, size: Option<int>, aggressor: Option<Side>,
                        timestamp: nat, now: nat): Result<(Engine, seq<Fill>)>
  {
    if price <= 0 || price >= SCALE then Err("paper_trade_price_out_of_range")
    else if size.None? || size.value <= 0 || aggressor.None? then Ok((e, []))
    else
      var resting := if aggressor.value.Buy? then Sell else Buy;
      var liquidity :- ParticipationAmount(size.value, e.participationBps);
      var pass := PassForTrade(TradePass(e.orders, [], liquidity), SortedKeys(e.orders.Keys),
                               Print(assetId, price, resting, timestamp), now);
      ApplyPlans(e.(orders := pass.orders), PositivePlans(pass.plans), now, [])
  }
}
