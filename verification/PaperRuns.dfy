/** Whole runs of the paper engine: what holds in every reachable state. */
module PaperRuns {
  import opened Prelude
  import opened Ordered
  import opened Sums
  import opened FixedPoint
  import opened Book
  import opened MarketEvents
  import opened PaperMath
  import opened PaperCore
  import opened PaperInvariant
  import opened PaperPlans
  import opened PaperOrders
  import opened PaperMatching
  import opened PaperTrades
  import opened PaperFlatten
  import opened PaperFlattenProofs
  import opened PaperLots

  // ----- Actions -----

  datatype Action =
    | Submitting(intent: Intent, id: string, now: nat)
    | BookUpdate(book: BookState, now: nat)
    | TradePrint(assetId: string, price: int, size: Option<int>, aggressor: Option<Side>, timestamp: nat, now: nat)
    | Cancelling(ids: seq<string>)
    | Flattening(books: map<string, BookState>, now: nat, limits: Limits, idFor: string -> string)
    | Pruning

  /** What callers guarantee: risk-checked intents, new ids. */
  ghost predicate Allowed(e: Engine, a: Action) {
    && (a.Submitting? ==> IntentOk(a.intent))
    && (a.Flattening? ==> FreshIds(e, a.idFor))
  }

  function Perform(e: Engine, a: Action): Result<(Engine, seq<Fill>)> {
    match a
    case Submitting(intent, id, now) =>
      var d :- Submit(e, intent, id, now);
      Ok((d, []))
    case BookUpdate(book, now) =>
      var (d, fills, expired) :- ProcessBook(e, book, now);
      Ok((d, fills))
    case TradePrint(assetId, price, size, aggressor, timestamp, now) =>
      ProcessTrade(e, assetId, price, size, aggressor, timestamp, now)
    case Cancelling(ids) => Ok((e.(orders := CancelIds(e.orders, ids)), []))
    case Flattening(books, now, limits, idFor) => Flatten(e, books, now, limits, idFor)
    case Pruning => Ok((Pruned(e), []))
  }

  /** An action works on a copy; a failed one leaves the engine as it was. */
  function Step(e: Engine, a: Action): (Engine, seq<Fill>) {
    var r := Perform(e, a);
    if r.Ok? then r.value else (e, [])
  }

  /** Conservation: every position moves by exactly what the fills bought and sold. */
  ghost predicate Conserves(e: Engine, d: Engine, fills: seq<Fill>) {
    forall a :: Held(d, a) == Held(e, a) + FillSum(fills, NetOf(a))
  }

  /** Every position's size and average are what replaying the fills makes of them. */
  ghost predicate LotStep(e: Engine, d: Engine, fills: seq<Fill>) {
    forall a :: Traces(LotOf(e, a), fills, a, e.feeBps, LotOf(d, a))
  }

  /** Executing plans on an engine that differs from `e` only in its orders. */
  lemma ExecutionLots(e: Engine, staged: Engine, plans: seq<Plan>, now: nat)
    requires Shape(staged) && Ready(staged.orders, plans) && ApplyPlans(staged, plans, now, []).Ok?
    requires staged == e.(orders := staged.orders)
    ensures var (d, fills) := ApplyPlans(staged, plans, now, []).value;
      LotStep(e, d, fills)
  {
    hide ApplyPlans, Ready, Traces, Shape;
    var (d, fills) := ApplyPlans(staged, plans, now, []).value;
    forall a ensures Traces(LotOf(e, a), fills, a, e.feeBps, LotOf(d, a)) {
      PlansLot(staged, plans, now, a);
      assert LotOf(staged, a) == LotOf(e, a);
    }
  }

  lemma BookLots(e: Engine, book: BookState, now: nat, k: nat)
    requires Inv(e, k) && ProcessBook(e, book, now).Ok?
    ensures var (d, fills, expired) := ProcessBook(e, book, now).value;
      LotStep(e, d, fills)
  {
    hide ApplyPlans, Ready, LotStep, ProcessBook, BookPassOf;
    var pass := BookStaging(e, book, now, k);
    ExecutionLots(e, Staged(e, pass), pass.plans, now);
  }

  lemma PrintLots(e: Engine, t: Print, now: nat, liquidity: int, k: nat)
    requires Inv(e, k) && liquidity >= 0
    ensures PositivePlans(TradePassOf(e, t, now, liquidity).plans) == TradePassOf(e, t, now, liquidity).plans
    ensures var pass := TradePassOf(e, t, now, liquidity);
      var r := ApplyPlans(e.(orders := pass.orders), pass.plans, now, []);
      r.Ok? ==> LotStep(e, r.value.0, r.value.1)
  {
    hide ApplyPlans, Ready, LotStep, TradePassOf;
    TradePassReady(e, t, now, liquidity, k);
    var pass := TradePassOf(e, t, now, liquidity);
    if ApplyPlans(e.(orders := pass.orders), pass.plans, now, []).Ok? {
      ExecutionLots(e, e.(orders := pass.orders), pass.plans, now);
    }
  }

  lemma NoFillsNoMoves(e: Engine, d: Engine)
    requires d.positions == e.positions
    ensures LotStep(e, d, [])
  {
  }

  lemma TradeLots(e: Engine, assetId: string, price: int, size: Option<int>, aggressor: Option<Side>, timestamp: nat, now: nat, k: nat)
    requires Inv(e, k) && ProcessTrade(e, assetId, price, size, aggressor, timestamp, now).Ok?
    ensures var (d, fills) := ProcessTrade(e, assetId, price, size, aggressor, timestamp, now).value;
      LotStep(e, d, fills)
  {
    hide Inv, LotStep, ApplyPlans, PassForTrade, SortedKeys, PositivePlans;
    if size.Some? && size.value > 0 && aggressor.Some? {
      var t := Print(assetId, price, if aggressor.value.Buy? then Sell else Buy, timestamp);
      ParticipationIsFloor(size.value, e.participationBps);
      PrintLots(e, t, now, ParticipationAmount(size.value, e.participationBps).value, k);
    } else {
      NoFillsNoMoves(e, e);
    }
  }

  lemma FlattenKeepsInv(e: Engine, books: map<string, BookState>, now: nat, limits: Limits, idFor: string -> string, k: nat)
    requires Inv(e, k) && FreshIds(e, idFor) && Flatten(e, books, now, limits, idFor).Ok?
    ensures var (d, fills) := Flatten(e, books, now, limits, idFor).value;
      Inv(d, k + PartialBuys(fills)) && d.feeBps == e.feeBps && d.startingCash == e.startingCash
  {
    FlattenSound(e, books, now, limits, idFor, k);
    NoPartialBuys(Flatten(e, books, now, limits, idFor).value.1);
  }

  /** One action, successful or not, keeps the invariant. */
  lemma StepKeepsInv(e: Engine, a: Action, k: nat)
    requires Inv(e, k) && Allowed(e, a)
    ensures var (d, fills) := Step(e, a);
      Inv(d, k + PartialBuys(fills)) && d.feeBps == e.feeBps && d.startingCash == e.startingCash
  {
    if Perform(e, a).Ok? {
      match a {
        case Submitting(intent, id, now) =>
          SubmitKeepsInv(e, intent, id, now, k);
        case BookUpdate(book, now) =>
          ProcessBookKeepsInv(e, book, now, k);
        case TradePrint(assetId, price, size, aggressor, timestamp, now) =>
          ProcessTradeSound(e, assetId, price, size, aggressor, timestamp, now, k);
        case Cancelling(ids) =>
          CancelKeepsInv(e, ids, k);
        case Flattening(books, now, limits, idFor) =>
          FlattenKeepsInv(e, books, now, limits, idFor, k);
        case Pruning =>
          PruneKeepsInv(e, k);
      }
    }
  }

  lemma StepLots(e: Engine, a: Action, k: nat)
    requires Inv(e, k) && Allowed(e, a)
    ensures LotStep(e, Step(e, a).0, Step(e, a).1)
  {
    hide Inv, LotStep, ProcessBook, ProcessTrade, Flatten;
    if Perform(e, a).Ok? {
      match a {
        case BookUpdate(book, now) =>
          BookLots(e, book, now, k);
        case TradePrint(assetId, price, size, aggressor, timestamp, now) =>
          TradeLots(e, assetId, price, size, aggressor, timestamp, now, k);
        case Flattening(books, now, limits, idFor) =>
          FlattenLots(e, books, now, limits, idFor, k);
        case _ =>
          NoFillsNoMoves(e, Step(e, a).0);
      }
    } else {
      NoFillsNoMoves(e, e);
    }
  }

  lemma FlattenLots(e: Engine, books: map<string, BookState>, now: nat, limits: Limits, idFor: string -> string, k: nat)
    requires Inv(e, k) && FreshIds(e, idFor) && Flatten(e, books, now, limits, idFor).Ok?
    ensures LotStep(e, Flatten(e, books, now, limits, idFor).value.0, Flatten(e, books, now, limits, idFor).value.1)
  {
    hide Inv, Flatten, FreshIds, Traces;
    var (d, fills) := Flatten(e, books, now, limits, idFor).value;
    forall a ensures Traces(LotOf(e, a), fills, a, e.feeBps, LotOf(d, a)) {
      FlattenLot(e, books, now, limits, idFor, k, a);
    }
  }

  // ----- Runs -----

  ghost predicate RunAllowed(e: Engine, actions: seq<Action>)
    decreases |actions|
  {
    actions == [] || (Allowed(e, actions[0]) && RunAllowed(Step(e, actions[0]).0, actions[1..]))
  }

  function Run(e: Engine, actions: seq<Action>): (Engine, seq<Fill>)
    decreases |actions|
  {
    if actions == [] then (e, [])
    else
      var (next, fills) := Step(e, actions[0]);
      var (last, more) := Run(next, actions[1..]);
      (last, fills + more)
  }

  lemma {:induction false} PartialBuysConcat(a: seq<Fill>, b: seq<Fill>)
    ensures PartialBuys(a + b) == PartialBuys(a) + PartialBuys(b)
  {
    if a == [] {
      assert a + b == b;
    } else {
      assert (a + b)[1..] == a[1..] + b;
      PartialBuysConcat(a[1..], b);
    }
  }

  lemma {:induction false} RunKeepsInv(e: Engine, actions: seq<Action>, k: nat)
    requires Inv(e, k) && RunAllowed(e, actions)
    ensures var (d, fills) := Run(e, actions);
      Inv(d, k + PartialBuys(fills)) && d.feeBps == e.feeBps && d.startingCash == e.startingCash
    decreases |actions|
  {
    if actions != [] {
      StepKeepsInv(e, actions[0], k);
      var (next, fills) := Step(e, actions[0]);
      RunKeepsInv(next, actions[1..], k + PartialBuys(fills));
      PartialBuysConcat(fills, Run(next, actions[1..]).1);
    }
  }

  /** Over every run each position is what replaying the run's fills makes of it. */
  lemma {:induction false} RunLots(e: Engine, actions: seq<Action>, k: nat)
    requires Inv(e, k) && RunAllowed(e, actions)
    ensures LotStep(e, Run(e, actions).0, Run(e, actions).1)
    decreases |actions|
  {
    hide Inv, LotStep, Step, Allowed;
    if actions == [] {
      NoFillsNoMoves(e, e);
    } else {
      StepKeepsInv(e, actions[0], k);
      StepLots(e, actions[0], k);
      var (next, fills) := Step(e, actions[0]);
      RunLots(next, actions[1..], k + PartialBuys(fills));
      var (d, more) := Run(next, actions[1..]);
      LotsJoin(e, next, d, fills, more);
    }
  }

  lemma LotsJoin(e: Engine, next: Engine, d: Engine, fills: seq<Fill>, more: seq<Fill>)
    requires LotStep(e, next, fills) && LotStep(next, d, more) && next.feeBps == e.feeBps
    ensures LotStep(e, d, fills + more)
  {
    hide Traces, LotOf;
    forall a ensures Traces(LotOf(e, a), fills + more, a, e.feeBps, LotOf(d, a)) {
      assert Traces(LotOf(e, a), fills, a, e.feeBps, LotOf(next, a));
      assert Traces(LotOf(next, a), more, a, e.feeBps, LotOf(d, a));
      TracesJoin(LotOf(e, a), fills, LotOf(next, a), more, LotOf(d, a), a, e.feeBps);
    }
  }

  /** Over every run each position moves by exactly the net fills. */
  lemma RunMoves(e: Engine, actions: seq<Action>, k: nat)
    requires Inv(e, k) && RunAllowed(e, actions)
    ensures Conserves(e, Run(e, actions).0, Run(e, actions).1)
  {
    hide Inv, Run, RunAllowed;
    RunLots(e, actions, k);
    var (d, fills) := Run(e, actions);
    forall a ensures Held(d, a) == Held(e, a) + FillSum(fills, NetOf(a)) {
      assert Traces(LotOf(e, a), fills, a, e.feeBps, LotOf(d, a));
      ReplaySize(LotOf(e, a), fills, a, e.feeBps);
    }
  }

  /**
   * Every state reached from a new engine: rounding has created no value, reserved cash exceeds cash by at
   * most 3 units (1 without fees) per partial buy fill, open sells are covered, and positions are what was bought less what was sold.
   */
  lemma ReachableSound(startingCash: int, feeBps: nat, participationBps: nat, actions: seq<Action>)
    requires NewEngine(startingCash, feeBps, participationBps).Ok?
    requires RunAllowed(NewEngine(startingCash, feeBps, participationBps).value, actions)
    ensures var (e, fills) := Run(NewEngine(startingCash, feeBps, participationBps).value, actions);
      && SCALE * e.cash + BookValue(e) <= SCALE * (startingCash + e.realizedPnl)
      && TotalReserved(e) <= e.cash + DriftBound(feeBps, PartialBuys(fills))
      && e.cash >= 0
      && (forall a :: OpenSells(e, a) <= Held(e, a))
      && (forall a :: Held(e, a) == FillSum(fills, NetOf(a)) >= 0)
      && (forall id | id in e.orders :: OrderOk(id, e.orders[id]))
  {
    var start := NewEngine(startingCash, feeBps, participationBps).value;
    RunKeepsInv(start, actions, 0);
    RunMoves(start, actions, 0);
    var (e, fills) := Run(start, actions);
    forall a ensures Held(e, a) == FillSum(fills, NetOf(a)) {
      assert Held(start, a) == 0;
    }
  }

  /** Only buys that are filled in part take reservations past cash: a run without one leaves them within it. */
  lemma WholeFillsStayCovered(e: Engine, actions: seq<Action>)
    requires Inv(e, 0) && RunAllowed(e, actions) && PartialBuys(Run(e, actions).1) == 0
    ensures TotalReserved(Run(e, actions).0) <= Run(e, actions).0.cash
  {
    hide Run, RunAllowed;
    RunKeepsInv(e, actions, 0);
  }

  // ----- Validation of what a run leaves -----

  ghost predicate AveragesAtMost(e: Engine, bound: int) {
    forall a | a in e.positions :: e.positions[a].averagePrice <= bound
  }

  lemma ShapeValidates(e: Engine)
    requires Shape(e)
    ensures ValidateState(e).Ok? <==> AveragesAtMost(e, SCALE)
  {
    forall id | id in e.orders ensures OrderValid(id, e.orders[id]) {
      assert OrderOk(id, e.orders[id]);
    }
    if AveragesAtMost(e, SCALE) {
      forall a | a in e.positions ensures PositionValid(a, e.positions[a]) {
        assert PositionOk(a, e.positions[a]);
      }
    } else {
      var a :| a in e.positions && e.positions[a].averagePrice > SCALE;
      assert !PositionValid(a, e.positions[a]);
    }
  }

  /**
   * With fees validation can fail: after a buy it passes exactly when the position's accumulated cost
   * stays under `(SCALE + 1) / SCALE` per unit held.
   */
  lemma BuyValidates(e: Engine, assetId: string, quantity: int, price: int)
    requires Shape(e) && AveragesAtMost(e, SCALE) && 0 < price < SCALE && quantity > 0
    requires ApplyBuy(e, assetId, quantity, price, Notional(price, quantity), FeeOf(Notional(price, quantity), e.feeBps)).Ok?
    ensures var fee := FeeOf(Notional(price, quantity), e.feeBps);
      var p := PositionOrNew(e, assetId);
      ValidateState(ApplyBuy(e, assetId, quantity, price, Notional(price, quantity), fee).value).Ok?
      <==> NewCost(p.averagePrice, p.size, price, quantity, fee) * SCALE < (SCALE + 1) * (p.size + quantity)
  {
    hide ApplyBuy, Notional, FeeOf, NewAverage, NewCost, ValidateState;
    BuyMoves(e, assetId, quantity, price);
    var fee := FeeOf(Notional(price, quantity), e.feeBps);
    var p := PositionOrNew(e, assetId);
    var d := ApplyBuy(e, assetId, quantity, price, Notional(price, quantity), fee).value;
    ShapeValidates(d);
    NotionalFacts(price, quantity);
    FeeFacts(Notional(price, quantity), e.feeBps);
    AverageWithinOne(p.averagePrice, p.size, price, quantity, fee);
  }

  /** What a commit validates is the pruned engine; pruning changes no position. */
  lemma PrunedValidates(e: Engine, k: nat)
    requires Inv(e, k)
    ensures ValidateState(Pruned(e)).Ok? <==> AveragesAtMost(e, SCALE)
    ensures ValidateState(e).Ok? <==> AveragesAtMost(e, SCALE)
  {
    hide Inv, ValidateState;
    PruneKeepsInv(e, k);
    InvFacts(e, k);
    InvFacts(Pruned(e), k);
    ShapeValidates(e);
    ShapeValidates(Pruned(e));
  }

  /** Validation accepts what a run leaves exactly when no average that the run's fills replay to exceeds one. */
  lemma RunValidates(e: Engine, actions: seq<Action>, k: nat)
    requires Inv(e, k) && RunAllowed(e, actions)
    ensures var (d, fills) := Run(e, actions);
      && (ValidateState(Pruned(d)).Ok? <==> forall a :: Replay(LotOf(e, a), fills, a, e.feeBps).average <= SCALE)
      && (ValidateState(d).Ok? <==> ValidateState(Pruned(d)).Ok?)
  {
    hide Inv, Run, RunAllowed, ValidateState, Fits, Replay;
    RunKeepsInv(e, actions, k);
    RunLots(e, actions, k);
    var (d, fills) := Run(e, actions);
    PrunedValidates(d, k + PartialBuys(fills));
    forall a ensures Replay(LotOf(e, a), fills, a, e.feeBps) == LotOf(d, a) {
      assert Traces(LotOf(e, a), fills, a, e.feeBps, LotOf(d, a));
    }
    if AveragesAtMost(d, SCALE) {
      forall a ensures Replay(LotOf(e, a), fills, a, e.feeBps).average <= SCALE {
        assert a in d.positions ==> d.positions[a].averagePrice <= SCALE;
      }
    } else {
      var a :| a in d.positions && d.positions[a].averagePrice > SCALE;
      assert Replay(LotOf(e, a), fills, a, e.feeBps).average > SCALE;
    }
  }

  lemma LotsSane(e: Engine, k: nat, a: string)
    requires Inv(e, k)
    ensures PaperLots.Sane(LotOf(e, a)) && e.feeBps <= 10_000
  {
    hide MapSum;
    assert a in e.positions ==> PositionOk(a, e.positions[a]);
  }

  lemma {:induction false} RunPrefix(e: Engine, actions: seq<Action>, i: nat)
    requires i <= |actions| && RunAllowed(e, actions)
    ensures RunAllowed(e, actions[..i]) && Run(e, actions[..i]).1 <= Run(e, actions).1
    decreases i
  {
    hide Step, Allowed;
    if i > 0 {
      var (next, fills) := Step(e, actions[0]);
      assert actions[..i][1..] == actions[1..][..i - 1];
      RunPrefix(next, actions[1..], i - 1);
    }
  }

  /** A fill list whose buys all meet the guard replays to averages within one, at each of its prefixes. */
  lemma GuardedAverages(e: Engine, fills: seq<Fill>, part: seq<Fill>, a: string, last: Lot, k: nat)
    requires Inv(e, k) && AveragesAtMost(e, SCALE) && Traces(LotOf(e, a), fills, a, e.feeBps, last) && part <= fills
    requires Guarded(LotOf(e, a), fills, a, e.feeBps)
    ensures Replay(LotOf(e, a), part, a, e.feeBps).average <= SCALE
  {
    hide Inv, Fits, Replay, Guarded;
    LotsSane(e, k, a);
    GuardedExactly(LotOf(e, a), fills, a, e.feeBps);
    assert part == fills[..|part|];
  }

  /**
   * With fees: from a state that validates, if every buy fill of a run meets the guard, every state the run reaches
   * validates. Sells never raise an average.
   */
  lemma GuardedRunValidates(e: Engine, actions: seq<Action>, i: nat, k: nat)
    requires Inv(e, k) && RunAllowed(e, actions) && i <= |actions| && ValidateState(e).Ok?
    requires forall a :: Guarded(LotOf(e, a), Run(e, actions).1, a, e.feeBps)
    ensures var d := Run(e, actions[..i]).0;
      ValidateState(d).Ok? && ValidateState(Pruned(d)).Ok?
  {
    hide Inv, Run, RunAllowed, ValidateState, Fits, Replay, Guarded;
    InvFacts(e, k);
    ShapeValidates(e);
    RunPrefix(e, actions, i);
    RunLots(e, actions, k);
    var (d, fills) := Run(e, actions);
    var part := Run(e, actions[..i]).1;
    forall a ensures Replay(LotOf(e, a), part, a, e.feeBps).average <= SCALE {
      assert Traces(LotOf(e, a), fills, a, e.feeBps, LotOf(d, a));
      GuardedAverages(e, fills, part, a, LotOf(d, a), k);
    }
    RunValidates(e, actions[..i], k);
  }

  /** Highest price paid by a buy fill; zero when there is none. */
  function HighestBuy(fills: seq<Fill>): int {
    if fills == [] then 0
    else Max(if fills[0].side.Buy? then fills[0].price else 0, HighestBuy(fills[1..]))
  }

  lemma {:induction false} HighestBuyBounds(fills: seq<Fill>)
    ensures HighestBuy(fills) >= 0 && forall f | f in fills && f.side.Buy? :: f.price <= HighestBuy(fills)
  {
    if fills != [] {
      HighestBuyBounds(fills[1..]);
      assert fills == [fills[0]] + fills[1..];
    }
  }

  lemma {:induction false} FitsPrices(lot: Lot, fills: seq<Fill>, a: string, bps: nat)
    requires Fits(lot, fills, a, bps)
    ensures forall f | f in fills && f.assetId == a :: f.price <= SCALE
    decreases |fills|
  {
    if fills != [] {
      FitsPrices(Next(lot, fills[0], a, bps), fills[1..], a, bps);
      assert fills == [fills[0]] + fills[1..];
    }
  }

  /** Without fees no average price exceeds the highest price paid, so every reachable state passes validation. */
  lemma FeeFreeValidates(startingCash: int, participationBps: nat, actions: seq<Action>)
    requires NewEngine(startingCash, 0, participationBps).Ok?
    requires RunAllowed(NewEngine(startingCash, 0, participationBps).value, actions)
    ensures var (e, fills) := Run(NewEngine(startingCash, 0, participationBps).value, actions);
      AveragesAtMost(e, HighestBuy(fills)) && ValidateState(e).Ok? && ValidateState(Pruned(e)).Ok?
  {
    hide Run, RunAllowed, ValidateState, Fits, Replay;
    var start := NewEngine(startingCash, 0, participationBps).value;
    RunLots(start, actions, 0);
    var (e, fills) := Run(start, actions);
    HighestBuyBounds(fills);
    forall a ensures LotOf(e, a).average <= HighestBuy(fills) && Replay(NO_LOT, fills, a, 0).average <= SCALE {
      assert Traces(LotOf(start, a), fills, a, 0, LotOf(e, a));
      FitsPrices(NO_LOT, fills, a, 0);
      ReplayFeeFree(NO_LOT, fills, a, HighestBuy(fills));
      ReplayFeeFree(NO_LOT, fills, a, SCALE);
    }
    forall a | a in e.positions ensures e.positions[a].averagePrice <= HighestBuy(fills) {
      assert LotOf(e, a).average <= HighestBuy(fills);
    }
    RunValidates(start, actions, 0);
  }
}
