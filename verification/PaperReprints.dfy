/** A trade print repeated with its own timestamp: which orders the repetition can still fill. */
module PaperReprints {
  import opened Prelude
  import opened Ordered
  import opened FixedPoint
  import opened Book
  import opened MarketEvents
  import opened PaperCore
  import opened PaperInvariant
  import opened PaperPlans
  import opened PaperMatching
  import opened PaperTrades
  import opened PaperAllocation

  /** An order as a print leaves its stamp: stamped when it is reached before the budget is used up. */
  function Stamped(o: Order, t: Print, now: nat, reached: bool): Order {
    if reached && Live(o, t.assetId, now) && o.intent.side == t.restingSide && !SeenBefore(o, t.timestamp) then
      o.(lastTradeTimestamp := Some(t.timestamp))
    else o
  }

  lemma StampVisit(p: TradePass, done: seq<string>, id: string, orders: map<string, Order>, t: Print, now: nat, budget: nat)
    requires (forall j | j in done :: j in orders) && TradeUnvisited(p, id, orders)
    requires p.liquidity == Left(budget, Demand(done, orders, WantsTrade(t, now)))
    ensures VisitForTrade(p, id, t, now).orders[id]
      == Stamped(orders[id], t, now, Demand(done, orders, WantsTrade(t, now)) < budget)
  {
  }

  lemma {:induction false} OrdersElsewhere(p: TradePass, ids: seq<string>, t: Print, now: nat, j: string)
    requires (forall id | id in ids :: id in p.orders) && j !in ids && j in p.orders
    ensures PassForTrade(p, ids, t, now).orders[j] == p.orders[j]
    decreases |ids|
  {
    if ids != [] {
      assert ids[0] in ids && forall id | id in ids[1..] :: id in ids;
      TradeVisitElsewhere(p, ids[0], t, now, j);
      OrdersElsewhere(VisitForTrade(p, ids[0], t, now), ids[1..], t, now, j);
    }
  }

  /** What a pass does to the order at position `n`. */
  lemma {:induction false} PassStamps(p: TradePass, done: seq<string>, ids: seq<string>, orders: map<string, Order>,
      t: Print, now: nat, budget: nat, n: nat)
    requires (forall id | id in ids :: id in orders && id in p.orders && TradeUnvisited(p, id, orders)) && (forall j | j in done :: j in orders)
    requires Distinct(ids) && Sizes(orders) && n < |ids|
    requires p.liquidity == Left(budget, Demand(done, orders, WantsTrade(t, now)))
    ensures PassForTrade(p, ids, t, now).orders[ids[n]]
      == Stamped(orders[ids[n]], t, now, Demand(done + ids[..n], orders, WantsTrade(t, now)) < budget)
    decreases |ids|
  {
    hide VisitForTrade, Stamped, Left;
    var first, rest, wants := ids[0], ids[1..], WantsTrade(t, now);
    TradeVisit(p, done, first, orders, t, now, wants, budget);
    TradeStillUnvisited(p, ids, orders, t, now);
    var q := VisitForTrade(p, first, t, now);
    if n == 0 {
      assert done + ids[..0] == done;
      StampVisit(p, done, first, orders, t, now, budget);
      OrdersElsewhere(q, rest, t, now, first);
    } else {
      assert done + [first] + rest[..n - 1] == done + ids[..n];
      PassStamps(q, done + [first], rest, orders, t, now, budget, n - 1);
    }
  }

  lemma FullPassStamps(e: Engine, t: Print, now: nat, budget: nat, n: nat)
    requires Shape(e) && n < |SortedKeys(e.orders.Keys)|
    ensures var ids := SortedKeys(e.orders.Keys);
      && ids[n] in e.orders && (forall j | j in ids[..n] :: j in e.orders)
      && TradePassOf(e, t, now, budget).orders[ids[n]]
        == Stamped(e.orders[ids[n]], t, now, Demand(ids[..n], e.orders, WantsTrade(t, now)) < budget)
  {
    hide Stamped, VisitForTrade;
    var ids := SortedKeys(e.orders.Keys);
    SortedKeysDistinct(e.orders.Keys);
    assert ids[n] in e.orders;
    PassStamps(TradePass(e.orders, [], budget), [], ids, e.orders, t, now, budget, n);
    assert [] + ids[..n] == ids[..n];
  }

  /** The engine a print leaves, and its fills. */
  function Printed(e: Engine, t: Print, now: nat, budget: nat): Result<(Engine, seq<Fill>)> {
    var pass := TradePassOf(e, t, now, budget);
    ApplyPlans(e.(orders := pass.orders), pass.plans, now, [])
  }

  /** An order the repetition can fill: eligible from the start, but reached with the budget used up. */
  predicate Passed(e: Engine, t: Print, now: nat, later: nat, budget: nat, n: nat)
    requires n < |SortedKeys(e.orders.Keys)|
  {
    var ids := SortedKeys(e.orders.Keys);
    && ids[n] in e.orders && (forall j | j in ids[..n] :: j in e.orders)
    && Eligible(e.orders[ids[n]], t, later) && Demand(ids[..n], e.orders, WantsTrade(t, now)) >= budget
  }

  /** The print had a share and passed over an eligible order because orders with smaller ids had used that share up. */
  predicate PassedOver(e: Engine, t: Print, now: nat, later: nat, budget: nat) {
    budget > 0 && exists n | 0 <= n < |SortedKeys(e.orders.Keys)| :: Passed(e, t, now, later, budget, n)
  }

  /** What is left eligible for the same print are exactly the orders it passed over. */
  lemma EligibleAgain(e: Engine, t: Print, now: nat, later: nat, budget: nat, k: nat, n: nat)
    requires Inv(e, k) && Printed(e, t, now, budget).Ok? && now <= later && n < |SortedKeys(e.orders.Keys)|
    ensures var d := Printed(e, t, now, budget).value.0;
      var id := SortedKeys(e.orders.Keys)[n];
      id in d.orders && (Eligible(d.orders[id], t, later) <==> Passed(e, t, now, later, budget, n))
  {
    hide Inv, ApplyPlans, PassForTrade, SortedKeys, Ready, Demand;
    InvFacts(e, k);
    var pass := TradePassOf(e, t, now, budget);
    var id := SortedKeys(e.orders.Keys)[n];
    TradePassReady(e, t, now, budget, k);
    FullPassStamps(e, t, now, budget, n);
    FullTradeShares(e, t, now, budget, n);
    InvFacts(e.(orders := pass.orders), k);
    PlansProgress(e.(orders := pass.orders), pass.plans, now);
    var d := Printed(e, t, now, budget).value.0;
    assert Progressed(pass.orders[id], d.orders[id], PlannedFor(pass.plans, id));
  }

  lemma {:induction false} FirstWanted(ids: seq<string>, orders: map<string, Order>, wants: Order -> bool, n: nat) returns (m: nat)
    requires n < |ids| && (forall id | id in ids :: id in orders) && wants(orders[ids[n]])
    ensures m < |ids| && wants(orders[ids[m]]) && Demand(ids[..m], orders, wants) == 0
    decreases n
  {
    if j :| 0 <= j < n && wants(orders[ids[j]]) {
      m := FirstWanted(ids, orders, wants, j);
    } else {
      m := n;
      NoDemand(ids[..n], orders, wants);
    }
  }

  predicate EligibleAt(e: Engine, t: Print, now: nat, n: nat)
    requires n < |SortedKeys(e.orders.Keys)|
  {
    var id := SortedKeys(e.orders.Keys)[n];
    id in e.orders && Eligible(e.orders[id], t, now)
  }

  /** A print with a share plans something exactly when an order is eligible. */
  lemma PlansSomething(e: Engine, t: Print, now: nat, budget: nat, k: nat)
    requires Inv(e, k)
    ensures TradePassOf(e, t, now, budget).plans != [] <==>
      budget > 0 && (exists n | 0 <= n < |SortedKeys(e.orders.Keys)| :: EligibleAt(e, t, now, n))
  {
    hide Inv, PassForTrade, Ready;
    InvFacts(e, k);
    var pass := TradePassOf(e, t, now, budget);
    var ids := SortedKeys(e.orders.Keys);
    TradePassReady(e, t, now, budget, k);
    if pass.plans != [] {
      var p := pass.plans[0];
      assert p in pass.plans && PlanEligible(e.orders, p, t, now);
      var i :| 0 <= i < |ids| && ids[i] == p.id;
      assert EligibleAt(e, t, now, i);
      PlannedAtMost(pass.plans, e.orders, t.restingSide);
    }
    if budget > 0 && exists n | 0 <= n < |ids| :: EligibleAt(e, t, now, n) {
      var n :| 0 <= n < |ids| && EligibleAt(e, t, now, n);
      var m := FirstWanted(ids, e.orders, WantsTrade(t, now), n);
      FullTradeShares(e, t, now, budget, m);
      assert OrderOk(ids[m], e.orders[ids[m]]);
    }
  }

  /** A plan takes some of the budget. */
  lemma {:induction false} PlannedAtMost(plans: seq<Plan>, orders: map<string, Order>, side: Side)
    requires forall p | p in plans :: p.id in orders && orders[p.id].intent.side == side && p.quantity > 0
    ensures PlannedOn(plans, orders, side) >= 0 && (plans != [] ==> PlannedOn(plans, orders, side) > 0)
  {
    if plans != [] {
      assert plans[0] in plans;
      PlannedAtMost(plans[1..], orders, side);
    }
  }

  lemma RepeatPlans(e: Engine, t: Print, now: nat, later: nat, budget: nat, k: nat)
    requires Inv(e, k) && Printed(e, t, now, budget).Ok? && now <= later
    ensures var d := Printed(e, t, now, budget).value.0;
      TradePassOf(d, t, later, budget).plans != [] <==>
        PassedOver(e, t, now, later, budget)
  {
    hide Inv, Ready, PassForTrade, ApplyPlans, SortedKeys, Passed, Eligible;
    var d := Printed(e, t, now, budget).value.0;
    PrintedKeeps(e, t, now, budget, k);
    PlansSomething(d, t, later, budget, k + PartialBuys(Printed(e, t, now, budget).value.1));
    forall n | 0 <= n < |SortedKeys(e.orders.Keys)| ensures EligibleAt(d, t, later, n) <==> Passed(e, t, now, later, budget, n) {
      EligibleAgain(e, t, now, later, budget, k, n);
    }
  }

  lemma PrintedKeeps(e: Engine, t: Print, now: nat, budget: nat, k: nat)
    requires Inv(e, k) && Printed(e, t, now, budget).Ok?
    ensures var (d, fills) := Printed(e, t, now, budget).value;
      Inv(d, k + PartialBuys(fills)) && d.orders.Keys == e.orders.Keys && d.participationBps == e.participationBps
  {
    hide Inv, Ready, PassForTrade, ApplyPlans, SortedKeys;
    InvFacts(e, k);
    TradePassReady(e, t, now, budget, k);
    var pass := TradePassOf(e, t, now, budget);
    InvFacts(e.(orders := pass.orders), k);
    PlansKeepInv(e.(orders := pass.orders), pass.plans, now, k);
    PlansProgress(e.(orders := pass.orders), pass.plans, now);
  }

  /** The share of a print, and the print as the matching sees it. */
  function PrintOf(assetId: string, price: int, aggressor: Side, timestamp: nat): Print {
    Print(assetId, price, if aggressor.Buy? then Sell else Buy, timestamp)
  }

  lemma PrintIsPrinted(e: Engine, assetId: string, price: int, size: int, aggressor: Side, timestamp: nat, now: nat, k: nat)
    requires Inv(e, k) && size > 0 && 0 < price < SCALE && ParticipationAmount(size, e.participationBps).Ok?
    ensures var budget := size * e.participationBps / 10_000;
      && budget >= 0
      && ProcessTrade(e, assetId, price, Some(size), Some(aggressor), timestamp, now)
        == Printed(e, PrintOf(assetId, price, aggressor, timestamp), now, budget)
  {
    hide Inv, ApplyPlans, PassForTrade, SortedKeys, PositivePlans;
    ParticipationIsFloor(size, e.participationBps);
    TradePassReady(e, PrintOf(assetId, price, aggressor, timestamp), now, ParticipationAmount(size, e.participationBps).value, k);
  }

  lemma FillsArePlans(e: Engine, t: Print, now: nat, budget: nat, k: nat)
    requires Inv(e, k)
    ensures Printed(e, t, now, budget).Ok? ==> |Printed(e, t, now, budget).value.1| == |TradePassOf(e, t, now, budget).plans|
    ensures TradePassOf(e, t, now, budget).plans == [] ==> Printed(e, t, now, budget).Ok?
  {
    hide Inv, Ready, PassForTrade, SortedKeys;
    TradePassReady(e, t, now, budget, k);
    var pass := TradePassOf(e, t, now, budget);
    InvFacts(e.(orders := pass.orders), k);
    if Printed(e, t, now, budget).Ok? {
      PlansExecute(e.(orders := pass.orders), pass.plans, now);
    }
  }

  lemma RepeatPrinted(e: Engine, t: Print, now: nat, later: nat, budget: nat, k: nat)
    requires Inv(e, k) && Printed(e, t, now, budget).Ok? && now <= later
    ensures var r := Printed(Printed(e, t, now, budget).value.0, t, later, budget);
      if PassedOver(e, t, now, later, budget) then r.Ok? ==> r.value.1 != [] else r.Ok? && r.value.1 == []
  {
    hide Inv, Printed, PassedOver, TradePassOf;
    var (d, fills) := Printed(e, t, now, budget).value;
    PrintedKeeps(e, t, now, budget, k);
    RepeatPlans(e, t, now, later, budget, k);
    FillsArePlans(d, t, later, budget, k + PartialBuys(fills));
  }

  /**
   * The same print again, at the same time or later: it fills nothing unless the first one had a share and passed over an
   * eligible order because orders with smaller ids had used that share up, and then, if it succeeds, it fills something.
   */
  lemma RepeatPrint(e: Engine, assetId: string, price: int, size: int, aggressor: Side, timestamp: nat, now: nat, later: nat, k: nat)
    requires Inv(e, k) && size > 0 && now <= later
    requires ProcessTrade(e, assetId, price, Some(size), Some(aggressor), timestamp, now).Ok?
    ensures var d := ProcessTrade(e, assetId, price, Some(size), Some(aggressor), timestamp, now).value.0;
      var r := ProcessTrade(d, assetId, price, Some(size), Some(aggressor), timestamp, later);
      if PassedOver(e, PrintOf(assetId, price, aggressor, timestamp), now, later, Max(0, size * e.participationBps / 10_000))
      then r.Ok? ==> r.value.1 != []
      else r.Ok? && r.value.1 == []
  {
    hide Inv, ProcessTrade, PassedOver, Printed, PrintOf;
    var t := PrintOf(assetId, price, aggressor, timestamp);
    PrintShareExists(e, assetId, price, size, aggressor, timestamp, now);
    PrintIsPrinted(e, assetId, price, size, aggressor, timestamp, now, k);
    var budget := size * e.participationBps / 10_000;
    var (d, fills) := Printed(e, t, now, budget).value;
    PrintedKeeps(e, t, now, budget, k);
    PrintIsPrinted(d, assetId, price, size, aggressor, timestamp, later, k + PartialBuys(fills));
    RepeatPrinted(e, t, now, later, budget, k);
  }

  lemma PrintShareExists(e: Engine, assetId: string, price: int, size: int, aggressor: Side, timestamp: nat, now: nat)
    requires size > 0 && ProcessTrade(e, assetId, price, Some(size), Some(aggressor), timestamp, now).Ok?
    ensures 0 < price < SCALE && ParticipationAmount(size, e.participationBps).Ok?
  {
    hide ApplyPlans, PassForTrade, SortedKeys, PositivePlans;
  }
}
