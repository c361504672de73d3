/** The paper engine as the mutable object it is: each method is proved equal to its function on `Engine`. */
module PaperMachine {
  import opened Prelude
  import opened Ordered
  import opened FixedPoint
  import opened Book
  import opened MarketEvents
  import opened PaperCore
  import opened PaperFlatten
  import PaperInvariant
  import PaperPlans

  class PaperEngine {
    const startingCash: int
    const feeBps: nat
    const participationBps: nat
    var cash: int
    var realizedPnl: int
    var feesPaid: int
    var positions: map<string, Position>
    var orders: map<string, Order>

    function View(): Engine
      reads this
    {
      Engine(startingCash, cash, realizedPnl, feesPaid, feeBps, participationBps, positions, orders)
    }

    /** A clone of a state. */
    constructor (e: Engine)
      ensures View() == e
    {
      startingCash, feeBps, participationBps := e.startingCash, e.feeBps, e.participationBps;
      cash, realizedPnl, feesPaid := e.cash, e.realizedPnl, e.feesPaid;
      positions, orders := e.positions, e.orders;
    }

    /** Takes over a staged state of the same configuration. */
    method Become(e: Engine)
      requires ConfigurationMatches(e, startingCash, feeBps, participationBps)
      modifies this
      ensures View() == e
    {
      cash, realizedPnl, feesPaid := e.cash, e.realizedPnl, e.feesPaid;
      positions, orders := e.positions, e.orders;
    }

    // ----- Reservations -----

    method AvailableCashUsdc() returns (r: Result<int>)
      ensures r == AvailableCash(View())
    {
      var ids := SortedKeys(orders.Keys);
      var reserved := 0;
      assert ids[0..] == ids;
      for i := 0 to |ids|
        invariant ReservedCash(ids[i..], orders, feeBps, reserved) == ReservedCash(ids, orders, feeBps, 0)
      {
        assert ids[i..][1..] == ids[i + 1..];
        var o := orders[ids[i]];
        if IsOpen(o.status) && o.intent.side.Buy? {
          var reserve :- BuyReserve(o.intent.limitPrice, o.remainingSize, feeBps);
          reserved :- Add(reserved, reserve);
        }
      }
      var available :- Sub(cash, reserved);
      if available < 0 {
        return Err("paper_reserved_cash_invariant_broken");
      }
      return Ok(available);
    }

    method AvailablePositionOf(assetId: string) returns (r: Result<int>)
      ensures r == AvailablePosition(View(), assetId)
    {
      var ids := SortedKeys(orders.Keys);
      var reserved := 0;
      assert ids[0..] == ids;
      for i := 0 to |ids|
        invariant ReservedPosition(ids[i..], orders, assetId, reserved) == ReservedPosition(ids, orders, assetId, 0)
      {
        assert ids[i..][1..] == ids[i + 1..];
        if OpenSellOf(orders[ids[i]], assetId) {
          reserved :- Add(reserved, orders[ids[i]].remainingSize);
        }
      }
      var held := if assetId in positions then positions[assetId].size else 0;
      var available :- Sub(held, reserved);
      if available < 0 {
        return Err("paper_reserved_position_invariant_broken");
      }
      return Ok(available);
    }

    // ----- Submit, cancel, prune -----

    method SubmitOrder(intent: Intent, id: string, now: nat) returns (r: Result<()>)
      modifies `orders
      ensures r.Ok? <==> Submit(old(View()), intent, id, now).Ok?
      ensures r.Ok? ==> View() == Submit(old(View()), intent, id, now).value
      ensures r.Err? ==> View() == old(View()) && Submit(View(), intent, id, now) == Err(r.error)
    {
      if id in orders {
        return Err("duplicate_paper_client_order_id");
      }
      if intent.expiresAt <= now {
        return Err("expired_paper_intent");
      }
      var reserve :- BuyReserve(intent.limitPrice, intent.size, feeBps);
      match intent.side {
        case Buy =>
          var available := AvailableCashUsdc();
          if available.Err? { return Err(available.error); }
          if reserve > available.value { return Err("paper_insufficient_available_cash"); }
        case Sell =>
          var available := AvailablePositionOf(intent.assetId);
          if available.Err? { return Err(available.error); }
          if intent.size > available.value { return Err("paper_insufficient_available_position"); }
      }
      orders := orders[id := RestingOrder(intent, id, now, None)];
      return Ok(());
    }

    method Cancel(id: string) returns (r: Result<()>)
      modifies `orders
      ensures r.Ok? <==> id in old(orders)
      ensures View() == old(View()).(orders := CancelOrder(old(orders), id))
    {
      if id !in orders {
        return Err("paper_order_not_found");
      }
      if IsOpen(orders[id].status) {
        orders := orders[id := orders[id].(status := Cancelled)];
      }
      return Ok(());
    }

    method CancelEach(ids: seq<string>)
      modifies `orders
      ensures View() == old(View()).(orders := CancelIds(old(orders), ids))
    {
      assert ids[0..] == ids;
      for i := 0 to |ids|
        invariant View() == old(View()).(orders := orders)
        invariant CancelIds(orders, ids[i..]) == CancelIds(old(orders), ids)
      {
        assert ids[i..][1..] == ids[i + 1..];
        var _ := Cancel(ids[i]);
      }
    }

    /** `cancel_all`, `cancel_expired` and `cancel_asset`, by what they select. */
    method CancelSelected(chosen: Order -> bool) returns (ids: seq<string>)
      modifies `orders
      ensures (View(), ids) == CancelWhere(old(View()), chosen)
    {
      ids := Selected(SortedKeys(orders.Keys), orders, chosen);
      CancelEach(ids);
    }

    method CancelAll() returns (ids: seq<string>)
      modifies `orders
      ensures (View(), ids) == CancelWhere(old(View()), OpenOrders())
    {
      ids := CancelSelected(OpenOrders());
    }

    method CancelExpired(now: nat) returns (ids: seq<string>)
      modifies `orders
      ensures (View(), ids) == CancelWhere(old(View()), OpenExpired(now))
    {
      ids := CancelSelected(OpenExpired(now));
    }

    method CancelAsset(assetId: string) returns (ids: seq<string>)
      modifies `orders
      ensures (View(), ids) == CancelWhere(old(View()), OpenOn(assetId))
    {
      ids := CancelSelected(OpenOn(assetId));
    }

    method PruneTerminalOrders()
      modifies `orders
      ensures View() == Pruned(old(View()))
    {
      orders := map id | id in orders && IsOpen(orders[id].status) :: orders[id];
    }

    // ----- Fills -----

    method Buy(assetId: string, quantity: int, price: int, notional: int, fee: int) returns (r: Result<()>)
      modifies this
      ensures r.Ok? <==> ApplyBuy(old(View()), assetId, quantity, price, notional, fee).Ok?
      ensures r.Ok? ==> View() == ApplyBuy(old(View()), assetId, quantity, price, notional, fee).value
      ensures r.Err? ==> ApplyBuy(old(View()), assetId, quantity, price, notional, fee) == Err(r.error)
    {
      var totalCost :- Add(notional, fee);
      if totalCost > cash {
        return Err("paper_cash_changed_before_fill");
      }
      cash :- Sub(cash, totalCost);
      feesPaid :- Add(feesPaid, fee);
      var p := if assetId in positions then positions[assetId] else Position(assetId, 0, 0, 0);
      var existingCost :- Mul(p.averagePrice, p.size);
      var newSize :- Add(p.size, quantity);
      var bought :- Mul(price, quantity);
      var withBought :- Add(existingCost, bought);
      var newCost :- Add(withBought, fee);
      var average :- Div(newCost, newSize);
      positions := positions[assetId := p.(size := newSize, averagePrice := average)];
      return Ok(());
    }

    method Sell(assetId: string, quantity: int, notional: int, fee: int) returns (r: Result<()>)
      modifies this
      ensures r.Ok? <==> ApplySell(old(View()), assetId, quantity, notional, fee).Ok?
      ensures r.Ok? ==> View() == ApplySell(old(View()), assetId, quantity, notional, fee).value
      ensures r.Err? ==> ApplySell(old(View()), assetId, quantity, notional, fee) == Err(r.error)
    {
      if assetId !in positions {
        return Err("paper_sell_without_position");
      }
      var p := positions[assetId];
      if quantity > p.size {
        return Err("paper_sell_exceeds_position");
      }
      var basis :- Mul(p.averagePrice, quantity);
      var proceeds :- Sub(notional, fee);
      var realized :- Sub(proceeds, basis);
      cash :- Add(cash, proceeds);
      realizedPnl :- Add(realizedPnl, realized);
      feesPaid :- Add(feesPaid, fee);
      var ofPosition :- Add(p.realizedPnl, realized);
      var size :- Sub(p.size, quantity);
      positions := positions[assetId :=
        p.(size := size, averagePrice := if size == 0 then 0 else p.averagePrice, realizedPnl := ofPosition)];
      return Ok(());
    }

    method FillAtPrice(id: string, quantity: int, price: int, now: nat) returns (r: Result<Fill>)
      modifies this
      ensures r.Ok? <==> ApplyFillAtPrice(old(View()), id, quantity, price, now).Ok?
      ensures r.Ok? ==> (View(), r.value) == ApplyFillAtPrice(old(View()), id, quantity, price, now).value
      ensures r.Err? ==> ApplyFillAtPrice(old(View()), id, quantity, price, now) == Err(r.error)
    {
      if id !in orders {
        return Err("paper_order_not_found");
      }
      var o := orders[id];
      var i := o.intent;
      if quantity <= 0 || quantity > o.remainingSize {
        return Err("paper_fill_quantity_out_of_range");
      }
      if price <= 0 || price >= SCALE || (if i.side.Buy? then price > i.limitPrice else price < i.limitPrice) {
        return Err("paper_fill_price_violates_limit");
      }
      var notional :- MulCeil(price, quantity);
      var fee :- BpsAmount(notional, feeBps);
      var moved;
      if i.side.Buy? {
        moved := Buy(i.assetId, quantity, price, notional, fee);
      } else {
        moved := Sell(i.assetId, quantity, notional, fee);
      }
      if moved.Err? { return Err(moved.error); }
      var filled :- FilledOrder(o, quantity, fee);
      orders := orders[id := filled];
      return Ok(Fill(id, i.assetId, i.side, price, quantity, notional, fee, now, filled.remainingSize == 0));
    }

    method FillEach(plans: seq<Plan>, now: nat) returns (r: Result<seq<Fill>>)
      modifies this
      ensures r.Ok? <==> ApplyPlans(old(View()), plans, now, []).Ok?
      ensures r.Ok? ==> (View(), r.value) == ApplyPlans(old(View()), plans, now, []).value
      ensures r.Err? ==> ApplyPlans(old(View()), plans, now, []) == Err(r.error)
    {
      var fills: seq<Fill> := [];
      assert plans[0..] == plans;
      for i := 0 to |plans|
        invariant ApplyPlans(View(), plans[i..], now, fills) == ApplyPlans(old(View()), plans, now, [])
      {
        assert plans[i..][1..] == plans[i + 1..];
        var fill := FillAtPrice(plans[i].id, plans[i].quantity, plans[i].price, now);
        if fill.Err? { return Err(fill.error); }
        fills := fills + [fill.value];
      }
      return Ok(fills);
    }

    // ----- Matching -----

    /** Looks at one order during a book pass: stamps it and takes its share of the running liquidity. */
    method VisitOrder(id: string, book: BookState, now: nat, expired: seq<string>, plans: seq<Plan>, buy: int, sell: int)
      returns (expired': seq<string>, plans': seq<Plan>, buy': int, sell': int)
      requires id in orders
      modifies `orders
      ensures BookPass(orders, expired', plans', buy', sell')
           == VisitForBook(BookPass(old(orders), expired, plans, buy, sell), id, book, now)
    {
      expired', plans', buy', sell' := expired, plans, buy, sell;
      var o := orders[id];
      if !IsOpen(o.status) || o.intent.assetId != book.assetId {
        return;
      }
      if o.intent.expiresAt <= now {
        expired' := expired + [id];
        return;
      }
      var version := BookVersion(book);
      if !book.tradeable || !HasText(book.hash) || o.lastBookVersion == Some(version) {
        return;
      }
      orders := orders[id := o.(lastBookVersion := Some(version))];
      if Crosses(o.intent, book) {
        var quantity := Min(o.remainingSize, if o.intent.side.Buy? then buy else sell);
        if quantity > 0 {
          plans' := plans + [Plan(id, quantity, o.intent.limitPrice)];
          if o.intent.side.Buy? {
            buy' := buy - quantity;
          } else {
            sell' := sell - quantity;
          }
        }
      }
    }

    method ProcessBookWithCancellations(book: BookState, now: nat) returns (r: Result<(seq<Fill>, seq<string>)>)
      modifies this
      ensures r.Ok? <==> ProcessBook(old(View()), book, now).Ok?
      ensures r.Ok? ==> (View(), r.value.0, r.value.1) == ProcessBook(old(View()), book, now).value
      ensures r.Err? ==> ProcessBook(old(View()), book, now) == Err(r.error)
    {
      var buy := if book.tradeable then ParticipationAmount(TopSize(book.asks), participationBps) else Ok(0);
      if buy.Err? { return Err(buy.error); }
      var sell := if book.tradeable then ParticipationAmount(TopSize(book.bids), participationBps) else Ok(0);
      if sell.Err? { return Err(sell.error); }
      var ids := SortedKeys(orders.Keys);
      var expired: seq<string>, plans: seq<Plan> := [], [];
      var buyLiquidity, sellLiquidity := buy.value, sell.value;
      assert ids[0..] == ids;
      for i := 0 to |ids|
        invariant orders.Keys == old(orders).Keys && View() == old(View()).(orders := orders)
        invariant PassForBook(BookPass(orders, expired, plans, buyLiquidity, sellLiquidity), ids[i..], book, now)
               == PassForBook(BookPass(old(orders), [], [], buy.value, sell.value), ids, book, now)
      {
        assert ids[i..][1..] == ids[i + 1..];
        expired, plans, buyLiquidity, sellLiquidity :=
          VisitOrder(ids[i], book, now, expired, plans, buyLiquidity, sellLiquidity);
      }
      CancelEach(expired);
      var fills := FillEach(plans, now);
      if fills.Err? { return Err(fills.error); }
      return Ok((fills.value, expired));
    }

    /** Looks at one order during a trade pass: stamps it and takes its share of the running liquidity. */
    method VisitOrderForTrade(id: string, t: Print, now: nat, plans: seq<Plan>, liquidity: int)
      returns (plans': seq<Plan>, liquidity': int)
      requires id in orders
      modifies `orders
      ensures TradePass(orders, plans', liquidity') == VisitForTrade(TradePass(old(orders), plans, liquidity), id, t, now)
    {
      plans', liquidity' := plans, liquidity;
      var o := orders[id];
      if !IsOpen(o.status) || o.intent.assetId != t.assetId || o.intent.side != t.restingSide || liquidity == 0
        || o.intent.expiresAt <= now || SeenBefore(o, t.timestamp)
      {
        return;
      }
      orders := orders[id := o.(lastTradeTimestamp := Some(t.timestamp))];
      if TradedThrough(o.intent, t.price) {
        var quantity := Min(o.remainingSize, liquidity);
        plans' := plans + [Plan(id, quantity, o.intent.limitPrice)];
        liquidity' := liquidity - quantity;
      }
    }

    method ProcessTradePrint(assetId: string, price: int, size: Option<int>, aggressor: Option<Side>, timestamp: nat, now: nat)
      returns (r: Result<seq<Fill>>)
      modifies this
      ensures r.Ok? <==> ProcessTrade(old(View()), assetId, price, size, aggressor, timestamp, now).Ok?
      ensures r.Ok? ==> (View(), r.value) == ProcessTrade(old(View()), assetId, price, size, aggressor, timestamp, now).value
      ensures r.Err? ==> ProcessTrade(old(View()), assetId, price, size, aggressor, timestamp, now) == Err(r.error)
    {
      if price <= 0 || price >= SCALE {
        return Err("paper_trade_price_out_of_range");
      }
      if size.None? || size.value <= 0 || aggressor.None? {
        return Ok([]);
      }
      var t := Print(assetId, price, if aggressor.value.Buy? then Side.Sell else Side.Buy, timestamp);
      var start :- ParticipationAmount(size.value, participationBps);
      var ids := SortedKeys(orders.Keys);
      var plans: seq<Plan>, liquidity := [], start;
      assert ids[0..] == ids;
      for i := 0 to |ids|
        invariant orders.Keys == old(orders).Keys && View() == old(View()).(orders := orders)
        invariant PassForTrade(TradePass(orders, plans, liquidity), ids[i..], t, now)
               == PassForTrade(TradePass(old(orders), [], start), ids, t, now)
      {
        assert ids[i..][1..] == ids[i + 1..];
        plans, liquidity := VisitOrderForTrade(ids[i], t, now, plans, liquidity);
      }
      r := FillEach(PositivePlans(plans), now);
    }

    // ----- Flatten -----

    method SellPlans(plans: seq<AssetPlan>, idFor: string -> string, now: nat) returns (r: Result<seq<Fill>>)
      modifies this
      ensures r.Ok? <==> ExecutePlans(old(View()), plans, idFor, now, []).Ok?
      ensures r.Ok? ==> (View(), r.value) == ExecutePlans(old(View()), plans, idFor, now, []).value
      ensures r.Err? ==> ExecutePlans(old(View()), plans, idFor, now, []) == Err(r.error)
    {
      var fills: seq<Fill> := [];
      assert plans[0..] == plans;
      for i := 0 to |plans|
        invariant ExecutePlans(View(), plans[i..], idFor, now, fills) == ExecutePlans(old(View()), plans, idFor, now, [])
      {
        assert plans[i..][1..] == plans[i + 1..];
        if plans[i].clips != [] {
          var id := idFor(plans[i].position.assetId);
          orders := orders[id := SellOrder(plans[i], id, now)];
          PaperPlans.FillsAccumulate(View(), ClipPlans(plans[i].clips, id), now, fills);
          var sold := FillEach(ClipPlans(plans[i].clips, id), now);
          if sold.Err? { return Err(sold.error); }
          fills := fills + sold.value;
        }
      }
      return Ok(fills);
    }

    /** All or nothing: the sale is staged on a clone that replaces this engine only if every step succeeded. */
    method FlattenAll(books: map<string, BookState>, now: nat, limits: Limits, idFor: string -> string) returns (r: Result<seq<Fill>>)
      modifies this
      ensures r.Ok? <==> Flatten(old(View()), books, now, limits, idFor).Ok?
      ensures r.Ok? ==> (View(), r.value) == Flatten(old(View()), books, now, limits, idFor).value
      ensures r.Err? ==> View() == old(View()) && Flatten(View(), books, now, limits, idFor) == Err(r.error)
    {
      var staged := new PaperEngine(View());
      var planned := PlanAssets(View(), SortedKeys(positions.Keys), books, now, limits, []);
      if planned.Err? { return Err(planned.error); }
      var _ := staged.CancelSelected(OpenOrders());
      var sold := staged.SellPlans(planned.value, idFor, now);
      if sold.Err? { return Err(sold.error); }
      ConstantsKept(CancelWhere(old(View()), OpenOrders()).0, planned.value, idFor, now, []);
      Become(staged.View());
      return sold;
    }
  }

  /** A filled engine keeps its configuration. */
  predicate SameConfiguration(e: Engine, d: Engine) {
    d.startingCash == e.startingCash && d.feeBps == e.feeBps && d.participationBps == e.participationBps
  }

  lemma FillKeepsConfiguration(e: Engine, id: string, quantity: int, price: int, now: nat)
    requires ApplyFillAtPrice(e, id, quantity, price, now).Ok?
    ensures SameConfiguration(e, ApplyFillAtPrice(e, id, quantity, price, now).value.0)
  {
    var moved, filled := PaperInvariant.FillParts(e, id, quantity, price, now);
  }

  lemma {:induction false} PlansKeepConfiguration(e: Engine, plans: seq<Plan>, now: nat, fills: seq<Fill>)
    requires ApplyPlans(e, plans, now, fills).Ok?
    ensures SameConfiguration(e, ApplyPlans(e, plans, now, fills).value.0)
    decreases |plans|
  {
    if plans != [] {
      FillKeepsConfiguration(e, plans[0].id, plans[0].quantity, plans[0].price, now);
      var (next, f) := ApplyFillAtPrice(e, plans[0].id, plans[0].quantity, plans[0].price, now).value;
      PlansKeepConfiguration(next, plans[1..], now, fills + [f]);
    }
  }

  lemma {:induction false} ConstantsKept(e: Engine, plans: seq<AssetPlan>, idFor: string -> string, now: nat, fills: seq<Fill>)
    requires ExecutePlans(e, plans, idFor, now, fills).Ok?
    ensures SameConfiguration(e, ExecutePlans(e, plans, idFor, now, fills).value.0)
    decreases |plans|
  {
    if plans != [] && plans[0].clips == [] {
      ConstantsKept(e, plans[1..], idFor, now, fills);
    } else if plans != [] {
      var id := idFor(plans[0].position.assetId);
      var resting := WithSellOrder(e, plans[0], id, now);
      PlansKeepConfiguration(resting, ClipPlans(plans[0].clips, id), now, fills);
      var (next, all) := ApplyPlans(resting, ClipPlans(plans[0].clips, id), now, fills).value;
      ConstantsKept(next, plans[1..], idFor, now, all);
    }
  }
}
