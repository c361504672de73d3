/** Money and fees over executions and whole runs: every unit of cash is accounted for by a fill. */
module PaperLedger {
  import opened Prelude
  import opened Ordered
  import opened Sums
  import opened FixedPoint
  import opened Book
  import opened MarketEvents
  import opened PaperMath
  import opened PaperCore
  import opened PaperInvariant
  import opened PaperPlans
  import opened PaperOrders
  import opened PaperMatching
  import opened PaperTrades
  import opened PaperFlatten
  import opened PaperFlattenProofs
  import opened PaperLots
  import opened PaperRuns

  // ----- What a fill is worth -----

  /** Price times size, rounded up to a raw unit; the fee on it, in basis points, rounded up as well. */
  ghost predicate Priced(f: Fill, bps: nat) {
    && (f.notional - 1) * 1_000_000 < f.price * f.size <= f.notional * 1_000_000
    && (f.fee - 1) * 10_000 < f.notional * bps <= f.fee * 10_000
  }

  /** What a fill pays in: nothing but its notional, less the fee; a buy pays both out. */
  function CashOf(): Fill -> int {
    (f: Fill) => if f.side.Buy? then -(f.notional + f.fee) else f.notional - f.fee
  }

  function FeesOf(): Fill -> int {
    (f: Fill) => f.fee
  }

  function FeesOn(id: string): Fill -> int {
    (f: Fill) => if f.clientOrderId == id then f.fee else 0
  }

  ghost function Realized(): Position -> int {
    (p: Position) => p.realizedPnl
  }

  /** Realized profit not booked on any position. */
  ghost function Unbooked(e: Engine): int {
    e.realizedPnl - MapSum(e.positions, Realized())
  }

  /** Cash and fees move by exactly what the fills say, and every profit is booked on a position. */
  ghost predicate Accounts(e: Engine, d: Engine, fills: seq<Fill>) {
    && d.cash == e.cash + FillSum(fills, CashOf()) && d.feesPaid == e.feesPaid + FillSum(fills, FeesOf())
    && Unbooked(d) == Unbooked(e) && d.feeBps == e.feeBps
    && forall f | f in fills :: Priced(f, e.feeBps)
  }

  lemma PriceMeaning(f: Fill, bps: nat)
    requires f.notional == Notional(f.price, f.size) && f.fee == FeeOf(f.notional, bps)
    ensures Priced(f, bps)
  {
  }

  lemma FillAccounts(e: Engine, id: string, quantity: int, price: int, now: nat)
    requires Shape(e) && ApplyFillAtPrice(e, id, quantity, price, now).Ok?
    ensures var (d, f) := ApplyFillAtPrice(e, id, quantity, price, now).value;
      && Accounts(e, d, [f])
      && f.filledAt == now && f.clientOrderId == id && (f.terminal <==> d.orders[id].remainingSize == 0)
      && (forall other | other in e.orders :: d.orders[other].feesPaid == e.orders[other].feesPaid + FeesOn(other)(f))
  {
    hide ApplyFillAtPrice, ApplyBuy, ApplySell, Notional, FeeOf, NewAverage, TruncDiv, MapSum;
    var moved, filled := FillParts(e, id, quantity, price, now);
    var f := ApplyFillAtPrice(e, id, quantity, price, now).value.1;
    var i := e.orders[id].intent;
    PriceMeaning(f, e.feeBps);
    assert [f][1..] == [] && FillSum([f], CashOf()) == CashOf()(f) && FillSum([f], FeesOf()) == f.fee;
    if i.side.Buy? {
      HeldNonNegative(e, i.assetId);
      BuyParts(e, i.assetId, quantity, price, f.notional, f.fee);
    } else {
      SellParts(e, i.assetId, quantity, f.notional, f.fee);
    }
    MapSumUpdate(e.positions, i.assetId, moved.positions[i.assetId], Realized());
  }

  lemma AccountsJoin(e: Engine, next: Engine, d: Engine, fills: seq<Fill>, more: seq<Fill>)
    requires Accounts(e, next, fills) && Accounts(next, d, more)
    ensures Accounts(e, d, fills + more)
  {
    hide Priced, MapSum;
    FillSumConcat(fills, more, CashOf());
    FillSumConcat(fills, more, FeesOf());
  }

  // ----- Executions -----

  lemma {:induction false} PlansAccount(e: Engine, plans: seq<Plan>, now: nat)
    requires Shape(e) && Ready(e.orders, plans) && ApplyPlans(e, plans, now, []).Ok?
    ensures Accounts(e, ApplyPlans(e, plans, now, []).value.0, ApplyPlans(e, plans, now, []).value.1)
    decreases |plans|
  {
    hide ApplyFillAtPrice, Shape, Ready, Priced, MapSum;
    if plans != [] {
      var next, f := PlansHead(e, plans, now);
      FillAccounts(e, plans[0].id, plans[0].quantity, plans[0].price, now);
      PlansAccount(next, plans[1..], now);
      var (d, more) := ApplyPlans(next, plans[1..], now, []).value;
      AccountsJoin(e, next, d, [f], more);
    }
  }

  /** Every order pays exactly the fees of its own fills. */
  lemma {:induction false} PlansPay(e: Engine, plans: seq<Plan>, now: nat, id: string)
    requires Shape(e) && Ready(e.orders, plans) && ApplyPlans(e, plans, now, []).Ok? && id in e.orders
    ensures var (d, fills) := ApplyPlans(e, plans, now, []).value;
      id in d.orders && d.orders[id].feesPaid == e.orders[id].feesPaid + FillSum(fills, FeesOn(id))
    decreases |plans|
  {
    hide ApplyFillAtPrice, Shape, Ready, Accounts;
    if plans != [] {
      var next, f := PlansHead(e, plans, now);
      FillAccounts(e, plans[0].id, plans[0].quantity, plans[0].price, now);
      PlansPay(next, plans[1..], now, id);
      var fills := ApplyPlans(e, plans, now, []).value.1;
      assert fills[0] == f && fills[1..] == ApplyPlans(next, plans[1..], now, []).value.1;
    }
  }

  lemma BookPays(e: Engine, book: BookState, now: nat, k: nat, id: string)
    requires Inv(e, k) && ProcessBook(e, book, now).Ok? && id in e.orders
    ensures var (d, fills, expired) := ProcessBook(e, book, now).value;
      id in d.orders && d.orders[id].feesPaid == e.orders[id].feesPaid + FillSum(fills, FeesOn(id))
  {
    hide Inv, ApplyPlans, Ready, PassForBook, SortedKeys;
    InvFacts(e, k);
    var pass := BookStaging(e, book, now, k);
    InvFacts(Staged(e, pass), k);
    FullPassOk(e, book, now, Liquidity(book, book.asks, e.participationBps).value, Liquidity(book, book.bids, e.participationBps).value);
    CancelIdsMeaning(pass.orders, pass.expired);
    PlansPay(Staged(e, pass), pass.plans, now, id);
  }

  // ----- Whole runs -----

  lemma StagedAccounts(e: Engine, staged: Engine, plans: seq<Plan>, now: nat)
    requires Shape(staged) && Ready(staged.orders, plans) && ApplyPlans(staged, plans, now, []).Ok?
    requires staged == e.(orders := staged.orders)
    ensures Accounts(e, ApplyPlans(staged, plans, now, []).value.0, ApplyPlans(staged, plans, now, []).value.1)
  {
    hide ApplyPlans, Ready, Shape, Priced, MapSum;
    PlansAccount(staged, plans, now);
  }

  lemma Unmoved(e: Engine, d: Engine)
    requires d == e.(orders := d.orders)
    ensures Accounts(e, d, [])
  {
  }

  lemma BookAccounts(e: Engine, book: BookState, now: nat, k: nat)
    requires Inv(e, k) && ProcessBook(e, book, now).Ok?
    ensures Accounts(e, ProcessBook(e, book, now).value.0, ProcessBook(e, book, now).value.1)
  {
    hide ApplyPlans, Ready, ProcessBook, BookPassOf, Accounts;
    var pass := BookStaging(e, book, now, k);
    StagedAccounts(e, Staged(e, pass), pass.plans, now);
  }

  lemma PrintAccounts(e: Engine, assetId: string, price: int, size: Option<int>, aggressor: Option<Side>, timestamp: nat, now: nat, k: nat)
    requires Inv(e, k) && ProcessTrade(e, assetId, price, size, aggressor, timestamp, now).Ok?
    ensures var (d, fills) := ProcessTrade(e, assetId, price, size, aggressor, timestamp, now).value;
      Accounts(e, d, fills)
  {
    hide Accounts, ApplyPlans, PassForTrade, SortedKeys, PositivePlans, Ready;
    if size.Some? && size.value > 0 && aggressor.Some? {
      var t := Print(assetId, price, if aggressor.value.Buy? then Sell else Buy, timestamp);
      ParticipationIsFloor(size.value, e.participationBps);
      var liquidity := ParticipationAmount(size.value, e.participationBps).value;
      TradePassReady(e, t, now, liquidity, k);
      var pass := TradePassOf(e, t, now, liquidity);
      InvFacts(e.(orders := pass.orders), k);
      StagedAccounts(e, e.(orders := pass.orders), pass.plans, now);
    } else {
      Unmoved(e, e);
    }
  }

  lemma SaleAccounts(e: Engine, plan: AssetPlan, id: string, now: nat, k: nat)
    requires SaleReady(e, plan, id, now, k)
    ensures var (d, fills) := ApplyPlans(WithSellOrder(e, plan, id, now), ClipPlans(plan.clips, id), now, []).value;
      Accounts(e, d, fills)
  {
    hide ApplyPlans, Ready, Accounts;
    SaleStarts(e, plan, id, now, k);
    StagedAccounts(e, WithSellOrder(e, plan, id, now), ClipPlans(plan.clips, id), now);
  }

  lemma {:induction false} ExecuteAccounts(first: Engine, e: Engine, plans: seq<AssetPlan>, idFor: string -> string, now: nat, fills: seq<Fill>, k: nat)
    requires Inv(e, k) && NoneOpen(e) && Executable(e, plans, idFor) && ExecutePlans(e, plans, idFor, now, fills).Ok?
    requires Accounts(first, e, fills)
    ensures Accounts(first, ExecutePlans(e, plans, idFor, now, fills).value.0, ExecutePlans(e, plans, idFor, now, fills).value.1)
    decreases |plans|
  {
    hide Inv, NoneOpen, Accounts, ApplyPlans, WithSellOrder;
    if plans != [] && plans[0].clips == [] {
      ExecuteAccounts(first, e, plans[1..], idFor, now, fills, k);
    } else if plans != [] {
      var id := idFor(plans[0].position.assetId);
      var resting := WithSellOrder(e, plans[0], id, now);
      var clips := ClipPlans(plans[0].clips, id);
      FillsAccumulate(resting, clips, now, fills);
      ExecutableAfter(e, plans, idFor, now, k);
      SaleCloses(e, plans[0], id, now, k);
      SaleKeepsInv(e, plans[0], id, now, k);
      SaleAccounts(e, plans[0], id, now, k);
      var (next, sold) := ApplyPlans(resting, clips, now, []).value;
      AccountsJoin(first, e, next, fills, sold);
      ExecuteAccounts(first, next, plans[1..], idFor, now, fills + sold, k);
    }
  }

  lemma FlattenAccounts(e: Engine, books: map<string, BookState>, now: nat, limits: Limits, idFor: string -> string, k: nat)
    requires Inv(e, k) && FreshIds(e, idFor) && Flatten(e, books, now, limits, idFor).Ok?
    ensures Accounts(e, Flatten(e, books, now, limits, idFor).value.0, Flatten(e, books, now, limits, idFor).value.1)
  {
    hide Inv, NoneOpen, Executable, PlanAssets, ExecutePlans, PlansSound, SortedKeys, Accounts;
    var plans := FlattenExecutes(e, books, now, limits, idFor, k);
    PlansExecutable(e, plans, books, limits, idFor, k);
    var cleared := CancelWhere(e, OpenOrders()).0;
    Unmoved(e, cleared);
    ExecuteAccounts(e, cleared, plans, idFor, now, [], k);
  }

  lemma StepAccounts(e: Engine, a: Action, k: nat)
    requires Inv(e, k) && PaperRuns.Allowed(e, a)
    ensures Accounts(e, Step(e, a).0, Step(e, a).1)
  {
    hide Inv, Accounts, ProcessBook, ProcessTrade, Flatten;
    if Perform(e, a).Ok? {
      match a {
        case BookUpdate(book, now) => BookAccounts(e, book, now, k);
        case TradePrint(assetId, price, size, aggressor, timestamp, now) =>
          PrintAccounts(e, assetId, price, size, aggressor, timestamp, now, k);
        case Flattening(books, now, limits, idFor) => FlattenAccounts(e, books, now, limits, idFor, k);
        case _ => Unmoved(e, Step(e, a).0);
      }
    } else {
      Unmoved(e, e);
    }
  }

  /** Over every run cash and fees move by exactly what the fills say, and every profit is booked on a position. */
  lemma {:induction false} RunAccounts(e: Engine, actions: seq<Action>, k: nat)
    requires Inv(e, k) && RunAllowed(e, actions)
    ensures Accounts(e, Run(e, actions).0, Run(e, actions).1)
    decreases |actions|
  {
    hide Inv, Accounts, Step, Allowed;
    if actions == [] {
      Unmoved(e, e);
    } else {
      StepKeepsInv(e, actions[0], k);
      StepAccounts(e, actions[0], k);
      var (next, fills) := Step(e, actions[0]);
      RunAccounts(next, actions[1..], k + PartialBuys(fills));
      AccountsJoin(e, next, Run(next, actions[1..]).0, fills, Run(next, actions[1..]).1);
    }
  }

  /** From a new engine: cash is what it started with plus what the fills paid in, and realized profit is what positions realized. */
  lemma ReachableAccounts(startingCash: int, feeBps: nat, participationBps: nat, actions: seq<Action>)
    requires NewEngine(startingCash, feeBps, participationBps).Ok?
    requires RunAllowed(NewEngine(startingCash, feeBps, participationBps).value, actions)
    ensures var (e, fills) := Run(NewEngine(startingCash, feeBps, participationBps).value, actions);
      && e.cash == startingCash + FillSum(fills, CashOf()) && e.feesPaid == FillSum(fills, FeesOf())
      && e.realizedPnl == MapSum(e.positions, Realized()) && forall f | f in fills :: Priced(f, feeBps)
  {
    hide Run, RunAllowed, Priced;
    RunAccounts(NewEngine(startingCash, feeBps, participationBps).value, actions, 0);
  }
}
