/** Executing a list of planned fills: what it does to each order, and that it keeps the invariant. */
module PaperPlans {
  import opened Prelude
  import opened FixedPoint
  import opened Book
  import PaperMath
  import opened PaperCore
  import opened PaperInvariant

  // ----- Totals over plans and fills -----

  function PlannedFor(plans: seq<Plan>, id: string): int {
    if plans == [] then 0
    else (if plans[0].id == id then plans[0].quantity else 0) + PlannedFor(plans[1..], id)
  }

  function PlannedOn(plans: seq<Plan>, orders: map<string, Order>, side: Side): int
    requires forall p | p in plans :: p.id in orders
  {
    if plans == [] then 0
    else (if orders[plans[0].id].intent.side == side then plans[0].quantity else 0) + PlannedOn(plans[1..], orders, side)
  }

  /** Total size filled on one side. */
  function FilledOn(fills: seq<Fill>, side: Side): int {
    if fills == [] then 0
    else (if fills[0].side == side then fills[0].size else 0) + FilledOn(fills[1..], side)
  }

  /** Buy fills that left their order open. */
  function PartialBuys(fills: seq<Fill>): nat {
    if fills == [] then 0
    else (if fills[0].side.Buy? && !fills[0].terminal then 1 else 0) + PartialBuys(fills[1..])
  }

  lemma {:induction false} PlannedAppend(plans: seq<Plan>, p: Plan, id: string)
    ensures PlannedFor(plans + [p], id) == PlannedFor(plans, id) + (if p.id == id then p.quantity else 0)
  {
    if plans == [] {
      assert plans + [p] == [p] && [p][1..] == [];
    } else {
      assert (plans + [p])[1..] == plans[1..] + [p];
      PlannedAppend(plans[1..], p, id);
    }
  }

  lemma {:induction false} PlannedOnAppend(plans: seq<Plan>, p: Plan, orders: map<string, Order>, side: Side)
    requires p.id in orders && forall q | q in plans :: q.id in orders
    ensures PlannedOn(plans + [p], orders, side) ==
            PlannedOn(plans, orders, side) + (if orders[p.id].intent.side == side then p.quantity else 0)
  {
    if plans == [] {
      assert plans + [p] == [p] && [p][1..] == [];
    } else {
      assert (plans + [p])[1..] == plans[1..] + [p];
      PlannedOnAppend(plans[1..], p, orders, side);
    }
  }

  lemma {:induction false} PlannedForPositive(plans: seq<Plan>, id: string)
    requires forall p | p in plans :: p.quantity > 0
    ensures PlannedFor(plans, id) >= 0
    ensures (exists p :: p in plans && p.id == id) <==> PlannedFor(plans, id) > 0
  {
    if plans != [] {
      PlannedForPositive(plans[1..], id);
      assert plans == [plans[0]] + plans[1..];
    }
  }

  // ----- Executability -----

  /** Plans for open orders, buys at their limit, never more per order than remains. */
  ghost predicate Ready(orders: map<string, Order>, plans: seq<Plan>) {
    && (forall p | p in plans ::
        && p.id in orders && IsOpen(orders[p.id].status) && p.quantity > 0
        && (orders[p.id].intent.side.Buy? ==> p.price == orders[p.id].intent.limitPrice))
    && (forall id | id in orders :: PlannedFor(plans, id) <= orders[id].remainingSize)
  }

  /** An order after `quantity` of it was filled, in one or several fills. */
  ghost predicate Progressed(o: Order, o': Order, quantity: int) {
    && o'.intent == o.intent && o'.clientOrderId == o.clientOrderId && o'.submittedAt == o.submittedAt
    && o'.lastBookVersion == o.lastBookVersion && o'.lastTradeTimestamp == o.lastTradeTimestamp
    && o'.filledSize == o.filledSize + quantity && o'.remainingSize == o.remainingSize - quantity
    && (if quantity == 0 then o' == o else o'.status == if o'.remainingSize == 0 then Filled else PartiallyFilled)
  }

  lemma ReadyAfter(orders: map<string, Order>, orders': map<string, Order>, plans: seq<Plan>)
    requires plans != [] && Ready(orders, plans)
    requires plans[0].id in orders' && orders' == orders[plans[0].id := orders'[plans[0].id]]
    requires OrderFilledBy(orders[plans[0].id], orders'[plans[0].id], plans[0].quantity)
    ensures Ready(orders', plans[1..])
  {
    var rest, first := plans[1..], plans[0];
    forall p | p in rest ensures p in plans {
    }
    forall p | p in rest ensures IsOpen(orders'[p.id].status) {
      if p.id == first.id {
        PlannedForPositive(rest, p.id);
        assert PlannedFor(plans, p.id) == first.quantity + PlannedFor(rest, p.id);
      }
    }
  }

  // ----- Execution -----

  /** Fills accumulate at the end; the accumulator changes nothing else. */
  lemma {:induction false} FillsAccumulate(e: Engine, plans: seq<Plan>, now: nat, fills: seq<Fill>)
    ensures var fromNone := ApplyPlans(e, plans, now, []);
      ApplyPlans(e, plans, now, fills) ==
        if fromNone.Ok? then Ok((fromNone.value.0, fills + fromNone.value.1)) else fromNone
    decreases |plans|
  {
    if plans == [] {
      assert fills + [] == fills;
    } else {
      var one := ApplyFillAtPrice(e, plans[0].id, plans[0].quantity, plans[0].price, now);
      if one.Ok? {
        var (next, f) := one.value;
        FillsAccumulate(next, plans[1..], now, fills + [f]);
        FillsAccumulate(next, plans[1..], now, [f]);
        assert [] + [f] == [f];
        var rest := ApplyPlans(next, plans[1..], now, []);
        if rest.Ok? {
          assert fills + [f] + rest.value.1 == fills + ([f] + rest.value.1);
        }
      }
    }
  }

  /** The fill that executes a plan. */
  ghost predicate Executes(f: Fill, p: Plan, o: Order) {
    f.clientOrderId == p.id && f.size == p.quantity && f.price == p.price
    && f.side == o.intent.side && f.assetId == o.intent.assetId
  }

  /** The first fill of an execution, and the rest of it. */
  lemma PlansHead(e: Engine, plans: seq<Plan>, now: nat) returns (next: Engine, f: Fill)
    requires plans != [] && Shape(e) && Ready(e.orders, plans) && ApplyPlans(e, plans, now, []).Ok?
    ensures ApplyFillAtPrice(e, plans[0].id, plans[0].quantity, plans[0].price, now) == Ok((next, f))
    ensures ApplyPlans(next, plans[1..], now, []).Ok?
    ensures ApplyPlans(e, plans, now, []).value ==
      (ApplyPlans(next, plans[1..], now, []).value.0, [f] + ApplyPlans(next, plans[1..], now, []).value.1)
    ensures Shape(next) && Ready(next.orders, plans[1..])
    ensures plans[0].id in e.orders && plans[0].id in next.orders
    ensures Executes(f, plans[0], e.orders[plans[0].id])
    ensures next.orders == e.orders[plans[0].id := next.orders[plans[0].id]]
    ensures OrderFilledBy(e.orders[plans[0].id], next.orders[plans[0].id], plans[0].quantity)
  {
    next, f := OneFill(e, plans[0], now);
    ReadyAfter(e.orders, next.orders, plans);
    FillsAccumulate(next, plans[1..], now, [] + [f]);
    assert [] + [f] == [f];
  }

  /** A successful execution keeps the invariant, counting the buys it left partially filled. */
  lemma {:induction false} PlansKeepInv(e: Engine, plans: seq<Plan>, now: nat, k: nat)
    requires Inv(e, k) && Ready(e.orders, plans) && ApplyPlans(e, plans, now, []).Ok?
    ensures var (d, fills) := ApplyPlans(e, plans, now, []).value;
      && Inv(d, k + PartialBuys(fills))
      && d.feeBps == e.feeBps && d.participationBps == e.participationBps && d.startingCash == e.startingCash
    decreases |plans|
  {
    if plans != [] {
      var p := plans[0];
      assert p in plans;
      var next, f := PlansHead(e, plans, now);
      FillKeepsInv(e, p.id, p.quantity, p.price, now, k);
      PlansKeepInv(next, plans[1..], now, if f.side.Buy? && !f.terminal then k + 1 else k);
      var fills := ApplyPlans(e, plans, now, []).value.1;
      assert fills[0] == f && fills[1..] == ApplyPlans(next, plans[1..], now, []).value.1;
    }
  }

  /** Every order ends filled by exactly what was planned for it. */
  lemma {:induction false} PlansProgress(e: Engine, plans: seq<Plan>, now: nat)
    requires Shape(e) && Ready(e.orders, plans) && ApplyPlans(e, plans, now, []).Ok?
    ensures var d := ApplyPlans(e, plans, now, []).value.0;
      && d.orders.Keys == e.orders.Keys
      && forall id | id in e.orders :: Progressed(e.orders[id], d.orders[id], PlannedFor(plans, id))
    decreases |plans|
  {
    hide ApplyFillAtPrice, Shape;
    if plans != [] {
      var next, f := PlansHead(e, plans, now);
      PlansProgress(next, plans[1..], now);
      var d := ApplyPlans(e, plans, now, []).value.0;
      forall id | id in e.orders ensures Progressed(e.orders[id], d.orders[id], PlannedFor(plans, id)) {
        forall p | p in plans[1..] ensures p.quantity > 0 {
        }
        PlannedForPositive(plans[1..], id);
        assert Progressed(next.orders[id], d.orders[id], PlannedFor(plans[1..], id));
      }
    }
  }

  /** The fills are the plans, in order. */
  lemma {:induction false} PlansExecute(e: Engine, plans: seq<Plan>, now: nat)
    requires Shape(e) && Ready(e.orders, plans) && ApplyPlans(e, plans, now, []).Ok?
    ensures var fills := ApplyPlans(e, plans, now, []).value.1;
      && |fills| == |plans|
      && forall i | 0 <= i < |plans| :: plans[i].id in e.orders && Executes(fills[i], plans[i], e.orders[plans[i].id])
    decreases |plans|
  {
    if plans != [] {
      var next, f := PlansHead(e, plans, now);
      PlansExecute(next, plans[1..], now);
      var fills := ApplyPlans(e, plans, now, []).value.1;
      var rest := ApplyPlans(next, plans[1..], now, []).value.1;
      forall i | 0 <= i < |plans| ensures plans[i].id in e.orders && Executes(fills[i], plans[i], e.orders[plans[i].id]) {
        if i > 0 {
          assert plans[i] == plans[1..][i - 1] && fills[i] == rest[i - 1];
        }
      }
    }
  }

  lemma {:induction false} PlansTotal(e: Engine, plans: seq<Plan>, now: nat, side: Side)
    requires Shape(e) && Ready(e.orders, plans) && ApplyPlans(e, plans, now, []).Ok?
    ensures FilledOn(ApplyPlans(e, plans, now, []).value.1, side) == PlannedOn(plans, e.orders, side)
    decreases |plans|
  {
    if plans != [] {
      var next, f := PlansHead(e, plans, now);
      PlansTotal(next, plans[1..], now, side);
      var fills := ApplyPlans(e, plans, now, []).value.1;
      assert fills[0] == f && fills[1..] == ApplyPlans(next, plans[1..], now, []).value.1;
      forall p | p in plans[1..] ensures p in plans {
      }
      SameSides(plans[1..], e.orders, next.orders, side);
    }
  }

  lemma OneFill(e: Engine, p: Plan, now: nat) returns (next: Engine, f: Fill)
    requires Shape(e) && ApplyFillAtPrice(e, p.id, p.quantity, p.price, now).Ok?
    ensures ApplyFillAtPrice(e, p.id, p.quantity, p.price, now).value == (next, f)
    ensures p.id in e.orders && Executes(f, p, e.orders[p.id])
    ensures p.id in next.orders && next.orders == e.orders[p.id := next.orders[p.id]]
    ensures OrderFilledBy(e.orders[p.id], next.orders[p.id], p.quantity)
    ensures Shape(next)
  {
    var moved, filled := FillParts(e, p.id, p.quantity, p.price, now);
    next := moved.(orders := moved.orders[p.id := filled]);
    f := ApplyFillAtPrice(e, p.id, p.quantity, p.price, now).value.1;
    var o := e.orders[p.id];
    FillShape(e, p, moved, filled);
  }

  lemma FillShape(e: Engine, p: Plan, moved: Engine, filled: Order)
    requires Shape(e) && p.id in e.orders && 0 < p.quantity <= e.orders[p.id].remainingSize && 0 < p.price < SCALE
    requires var i := e.orders[p.id].intent;
      var notional := PaperMath.Notional(p.price, p.quantity);
      var fee := PaperMath.FeeOf(notional, e.feeBps);
      && (if i.side.Buy? then ApplyBuy(e, i.assetId, p.quantity, p.price, notional, fee)
          else ApplySell(e, i.assetId, p.quantity, notional, fee)) == Ok(moved)
      && FilledOrder(e.orders[p.id], p.quantity, fee) == Ok(filled)
    ensures OrderFilledBy(e.orders[p.id], filled, p.quantity)
    ensures moved.orders == e.orders && Shape(moved.(orders := moved.orders[p.id := filled]))
  {
    var i := e.orders[p.id].intent;
    PaperMath.NotionalFacts(p.price, p.quantity);
    PaperMath.FeeFacts(PaperMath.Notional(p.price, p.quantity), e.feeBps);
    if i.side.Buy? {
      BuyMoves(e, i.assetId, p.quantity, p.price);
    } else {
      SellMoves(e, i.assetId, p.quantity, p.price);
    }
  }

  lemma {:induction false} SameSides(plans: seq<Plan>, orders: map<string, Order>, orders': map<string, Order>, side: Side)
    requires forall p | p in plans :: p.id in orders && p.id in orders' && orders'[p.id].intent == orders[p.id].intent
    ensures PlannedOn(plans, orders, side) == PlannedOn(plans, orders', side)
  {
    if plans != [] {
      assert plans[0] in plans;
      SameSides(plans[1..], orders, orders', side);
    }
  }
}
