/** Matching against a trade print: one budget, resting side only, each order at most once per timestamp. */
module PaperTrades {
  import opened Prelude
  import opened Ordered
  import opened FixedPoint
  import opened Book
  import opened PaperCore
  import opened PaperInvariant
  import opened PaperPlans
  import opened PaperOrders
  import opened PaperMatching

  predicate Eligible(o: Order, t: Print, now: nat) {
    Live(o, t.assetId, now) && o.intent.side == t.restingSide && !SeenBefore(o, t.timestamp)
    && TradedThrough(o.intent, t.price)
  }

  predicate PlanEligible(orders: map<string, Order>, p: Plan, t: Print, now: nat) {
    && p.id in orders && Eligible(orders[p.id], t, now)
    && p.price == orders[p.id].intent.limitPrice && 0 < p.quantity <= orders[p.id].remainingSize
  }

  ghost predicate OnlyTimed(orders: map<string, Order>, orders': map<string, Order>) {
    orders'.Keys == orders.Keys
    && forall id | id in orders :: orders'[id] == orders[id].(lastTradeTimestamp := orders'[id].lastTradeTimestamp)
  }

  ghost predicate TradePlanned(orders: map<string, Order>, plans: seq<Plan>, done: seq<string>, t: Print, now: nat) {
    && (forall p | p in plans :: PlanEligible(orders, p, t, now))
    && (forall id | id in orders :: PlannedFor(plans, id) <= orders[id].remainingSize)
    && (forall id | id !in done :: PlannedFor(plans, id) == 0)
  }

  ghost predicate TradePassOk(orders: map<string, Order>, p: TradePass, done: seq<string>, t: Print, now: nat, liquidity: int) {
    && OnlyTimed(orders, p.orders)
    && (forall id | id in orders && id !in done :: p.orders[id] == orders[id])
    && TradePlanned(orders, p.plans, done, t, now)
    && PlannedOn(p.plans, orders, t.restingSide) + p.liquidity == liquidity && p.liquidity >= 0
  }

  lemma TradePlanAdded(orders: map<string, Order>, plans: seq<Plan>, done: seq<string>, q: Plan, t: Print, now: nat)
    requires TradePlanned(orders, plans, done, t, now) && PlanEligible(orders, q, t, now) && q.id !in done
    ensures TradePlanned(orders, plans + [q], done + [q.id], t, now)
  {
    forall id ensures PlannedFor(plans + [q], id) == PlannedFor(plans, id) + (if q.id == id then q.quantity else 0) {
      PlannedAppend(plans, q, id);
    }
  }

  lemma TradeVisitKeeps(orders: map<string, Order>, p: TradePass, done: seq<string>, id: string, t: Print, now: nat, liquidity: int)
    requires TradePassOk(orders, p, done, t, now, liquidity) && id in orders && id !in done
    requires IsOpen(orders[id].status) ==> orders[id].remainingSize > 0
    ensures TradePassOk(orders, VisitForTrade(p, id, t, now), done + [id], t, now, liquidity)
  {
    var p' := VisitForTrade(p, id, t, now);
    if p'.plans != p.plans {
      var o := p.orders[id];
      var q := Plan(id, Min(o.remainingSize, p.liquidity), o.intent.limitPrice);
      TradePlanAdded(orders, p.plans, done, q, t, now);
      PlannedOnAppend(p.plans, q, orders, t.restingSide);
    }
  }

  lemma {:induction false} TradePassKeeps(orders: map<string, Order>, p: TradePass, done: seq<string>, ids: seq<string>,
                                          t: Print, now: nat, liquidity: int)
    requires TradePassOk(orders, p, done, t, now, liquidity) && Distinct(ids)
    requires forall id | id in ids :: id in orders && id !in done
    requires forall id | id in orders :: IsOpen(orders[id].status) ==> orders[id].remainingSize > 0
    ensures TradePassOk(orders, PassForTrade(p, ids, t, now), done + ids, t, now, liquidity)
    decreases |ids|
  {
    if ids == [] {
      assert done + ids == done;
    } else {
      var first, rest := ids[0], ids[1..];
      DistinctTail(ids, done);
      TradeVisitKeeps(orders, p, done, first, t, now, liquidity);
      var p' := VisitForTrade(p, first, t, now);
      assert PassForTrade(p, ids, t, now) == PassForTrade(p', rest, t, now);
      assert (done + [first]) + rest == done + ids;
      TradePassKeeps(orders, p', done + [first], rest, t, now, liquidity);
    }
  }

  lemma {:induction false} AllPositive(plans: seq<Plan>)
    requires forall p | p in plans :: p.quantity > 0
    ensures PositivePlans(plans) == plans
  {
    if plans != [] {
      assert plans[0] in plans;
      AllPositive(plans[1..]);
    }
  }

  /** A fill allowed by a print: an order resting on the other side, newer print, traded through, within what remained. */
  predicate TradeFillAllowed(e: Engine, f: Fill, t: Print, now: nat) {
    && f.clientOrderId in e.orders
    && var o := e.orders[f.clientOrderId];
    && Eligible(o, t, now) && f.side == t.restingSide && f.assetId == t.assetId
    && f.price == o.intent.limitPrice && 0 < f.size <= o.remainingSize
  }

  function TradePassOf(e: Engine, t: Print, now: nat, liquidity: int): (pass: TradePass)
    ensures pass.orders.Keys == e.orders.Keys
  {
    PassForTrade(TradePass(e.orders, [], liquidity), SortedKeys(e.orders.Keys), t, now)
  }

  lemma FullTradePass(e: Engine, t: Print, now: nat, liquidity: int)
    requires Shape(e) && liquidity >= 0
    ensures TradePassOk(e.orders, TradePassOf(e, t, now, liquidity), SortedKeys(e.orders.Keys), t, now, liquidity)
  {
    var ids := SortedKeys(e.orders.Keys);
    SortedKeysDistinct(e.orders.Keys);
    TradePassKeeps(e.orders, TradePass(e.orders, [], liquidity), [], ids, t, now, liquidity);
    assert [] + ids == ids;
  }

  lemma TradePassReady(e: Engine, t: Print, now: nat, liquidity: int, k: nat)
    requires Inv(e, k) && liquidity >= 0
    ensures var pass := TradePassOf(e, t, now, liquidity);
      && Inv(e.(orders := pass.orders), k) && Ready(pass.orders, pass.plans)
      && PositivePlans(pass.plans) == pass.plans
      && (forall p | p in pass.plans :: PlanEligible(e.orders, p, t, now))
      && OnlyTimed(e.orders, pass.orders)
      && PlannedOn(pass.plans, e.orders, t.restingSide) <= liquidity
  {
    FullTradePass(e, t, now, liquidity);
    var pass := TradePassOf(e, t, now, liquidity);
    assert AllRelaxed(e.orders, pass.orders);
    RelaxedKeepsInv(e, pass.orders, k);
    AllPositive(pass.plans);
  }

  lemma TradeFills(e: Engine, t: Print, now: nat, liquidity: int, k: nat)
    requires Inv(e, k) && liquidity >= 0
    requires var pass := TradePassOf(e, t, now, liquidity);
      ApplyPlans(e.(orders := pass.orders), pass.plans, now, []).Ok?
    ensures var pass := TradePassOf(e, t, now, liquidity);
      var fills := ApplyPlans(e.(orders := pass.orders), pass.plans, now, []).value.1;
      && (forall f | f in fills :: TradeFillAllowed(e, f, t, now))
      && FilledOn(fills, t.restingSide) <= liquidity
  {
    hide Inv, ApplyPlans, PassForTrade, SortedKeys;
    TradePassReady(e, t, now, liquidity, k);
    var pass := TradePassOf(e, t, now, liquidity);
    var timed := e.(orders := pass.orders);
    PlansExecute(timed, pass.plans, now);
    PlansTotal(timed, pass.plans, now, t.restingSide);
    SameSides(pass.plans, e.orders, pass.orders, t.restingSide);
    var fills := ApplyPlans(timed, pass.plans, now, []).value.1;
    forall f | f in fills ensures TradeFillAllowed(e, f, t, now) {
      var i :| 0 <= i < |fills| && fills[i] == f;
      assert pass.plans[i] in pass.plans;
    }
  }

  lemma {:induction false} OneSided(fills: seq<Fill>, side: Side)
    requires forall f | f in fills :: f.side == side
    ensures FilledOn(fills, if side.Buy? then Sell else Buy) == 0
  {
    if fills != [] {
      assert fills[0] in fills;
      OneSided(fills[1..], side);
    }
  }

  /**
   * One trade print: the invariant is kept; only eligible resting orders fill, at their limit;
   * all fills together stay within floor(size * bps / 10000).
   */
  lemma ProcessTradeSound(e: Engine, assetId: string, price: int, size: Option<int>, aggressor: Option<Side>,
                          timestamp: nat, now: nat, k: nat)
    requires Inv(e, k) && ProcessTrade(e, assetId, price, size, aggressor, timestamp, now).Ok?
    ensures var (d, fills) := ProcessTrade(e, assetId, price, size, aggressor, timestamp, now).value;
      && Inv(d, k + PartialBuys(fills))
      && d.feeBps == e.feeBps && d.participationBps == e.participationBps && d.startingCash == e.startingCash
      && (fills != [] ==> size.Some? && size.value > 0 && aggressor.Some?)
      && (size.Some? && size.value > 0 && aggressor.Some? ==>
          var t := Print(assetId, price, if aggressor.value.Buy? then Sell else Buy, timestamp);
          && (forall f | f in fills :: TradeFillAllowed(e, f, t, now))
          && FilledOn(fills, Buy) + FilledOn(fills, Sell) <= size.value * e.participationBps / 10_000)
  {
    if size.Some? && size.value > 0 && aggressor.Some? {
      var t := Print(assetId, price, if aggressor.value.Buy? then Sell else Buy, timestamp);
      ParticipationIsFloor(size.value, e.participationBps);
      var liquidity := ParticipationAmount(size.value, e.participationBps).value;
      TradePassReady(e, t, now, liquidity, k);
      var pass := TradePassOf(e, t, now, liquidity);
      PlansKeepInv(e.(orders := pass.orders), pass.plans, now, k);
      TradeFills(e, t, now, liquidity, k);
      OneSided(ProcessTrade(e, assetId, price, size, aggressor, timestamp, now).value.1, t.restingSide);
    }
  }
}
