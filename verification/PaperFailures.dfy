/** Runs that reach what the engine does not promise: reservations past cash, a refused fill, a state validation refuses. */
module PaperFailures {
  import opened Prelude
  import opened Ordered
  import opened Sums
  import opened FixedPoint
  import opened Book
  import opened MarketEvents
  import opened PaperMath
  import opened PaperCore
  import opened PaperInvariant
  import opened PaperOrders
  import opened PaperRuns

  // ----- One order, one print -----

  lemma SingleKey(id: string)
    ensures SortedKeys({id}) == [id]
  {
    assert {id} - {id} == {};
    MinimumUnique({id}, Minimum({id}), id);
  }

  function Timed(e: Engine, timestamp: nat): Engine
    requires "id" in e.orders
  {
    e.(orders := e.orders["id" := e.orders["id"].(lastTradeTimestamp := Some(timestamp))])
  }

  /** An order a sold print of `size` at its limit fills by exactly that size. */
  predicate Taken(e: Engine, size: int, timestamp: nat, now: nat) {
    && e.orders.Keys == {"id"} && ParticipationAmount(size, e.participationBps) == Ok(size)
    && var o := e.orders["id"];
    && IsOpen(o.status) && o.intent.side.Buy? && o.intent.assetId == "a" && o.intent.expiresAt > now && !SeenBefore(o, timestamp)
    && 0 < o.intent.limitPrice < SCALE && 0 < size <= o.remainingSize
  }

  lemma SinglePrint(e: Engine, size: int, timestamp: nat, now: nat)
    requires Taken(e, size, timestamp, now)
    ensures var price := e.orders["id"].intent.limitPrice;
      var one := ApplyFillAtPrice(Timed(e, timestamp), "id", size, price, now);
      ProcessTrade(e, "a", price, Some(size), Some(Sell), timestamp, now)
      == if one.Ok? then Ok((one.value.0, [one.value.1])) else Err(one.error)
  {
    hide ApplyFillAtPrice, ParticipationAmount;
    var price := e.orders["id"].intent.limitPrice;
    var t := Print("a", price, Buy, timestamp);
    var p := TradePass(e.orders, [], size);
    var plan := Plan("id", size, price);
    SingleKey("id");
    assert VisitForTrade(p, "id", t, now) == TradePass(Timed(e, timestamp).orders, [plan], 0);
    assert ["id"][1..] == [];
    assert PassForTrade(p, ["id"], t, now) == TradePass(Timed(e, timestamp).orders, [plan], 0);
    assert [plan][1..] == [];
    assert PositivePlans([plan]) == [plan];
    var one := ApplyFillAtPrice(Timed(e, timestamp), "id", size, price, now);
    if one.Ok? {
      assert [] + [one.value.1] == [one.value.1];
      assert ApplyPlans(one.value.0, [], now, [one.value.1]) == Ok((one.value.0, [one.value.1]));
    }
  }

  // ----- Reservations past cash -----

  function HalfIntent(): Intent {
    Intent("a", Buy, 500_000, 2, 10)
  }

  function HalfSubmitted(): Engine {
    Engine(1, 1, 0, 0, 0, 10_000, map[], map["id" := RestingOrder(HalfIntent(), "id", 1, None)])
  }

  /** One raw unit of cash, spent on one unit of a two-unit buy at 0.5. */
  function HalfFilled(): Engine {
    Engine(1, 0, 0, 0, 0, 10_000, map["a" := Position("a", 1, 0, 0)],
           map["id" := Order("id", HalfIntent(), PartiallyFilled, Some(1), 1, 1, 0, None, Some(2))])
  }

  function HalfRun(): seq<Action> {
    [Submitting(HalfIntent(), "id", 1), TradePrint("a", 500_000, Some(1), Some(Sell), 2, 2)]
  }

  lemma HalfSubmits()
    ensures Submit(NewEngine(1, 0, 10_000).value, HalfIntent(), "id", 1) == Ok(HalfSubmitted())
  {
    var e := NewEngine(1, 0, 10_000).value;
    assert e.orders.Keys == {};
    assert ReservedCash([], e.orders, 0, 0) == Ok(0);
    assert AvailableCash(e) == Ok(1);
    assert BuyReserve(500_000, 2, 0) == Ok(1);
  }

  lemma HalfAmounts()
    ensures MulCeil(500_000, 1) == Ok(1) && Mul(500_000, 1) == Ok(0) && Mul(0, 0) == Ok(0) && Div(0, 1) == Ok(0)
    ensures ParticipationAmount(1, 10_000) == Ok(1)
  {
  }

  lemma HalfBought()
    ensures var e := Timed(HalfSubmitted(), 2);
      ApplyBuy(e, "a", 1, 500_000, 1, 0) == Ok(e.(cash := 0, positions := map["a" := Position("a", 1, 0, 0)]))
  {
    HalfAmounts();
  }

  lemma HalfFills()
    ensures var r := ProcessTrade(HalfSubmitted(), "a", 500_000, Some(1), Some(Sell), 2, 2);
      r.Ok? && r.value.0 == HalfFilled()
  {
    hide ApplyBuy, MulCeil, ParticipationAmount, ProcessTrade;
    var s := Timed(HalfSubmitted(), 2);
    HalfAmounts();
    HalfBought();
    SinglePrint(HalfSubmitted(), 1, 2, 2);
    assert s.orders["id" := HalfFilled().orders["id"]] == HalfFilled().orders;
  }

  lemma HalfRuns()
    ensures RunAllowed(NewEngine(1, 0, 10_000).value, HalfRun()) && Run(NewEngine(1, 0, 10_000).value, HalfRun()).0 == HalfFilled()
  {
    hide Submit, ProcessTrade;
    var start := NewEngine(1, 0, 10_000).value;
    var first, second := HalfRun()[0], HalfRun()[1];
    HalfSubmits();
    HalfFills();
    assert HalfRun()[1..] == [second] && [second][1..] == [];
    assert Step(start, first) == (HalfSubmitted(), []);
    assert Step(HalfSubmitted(), second).0 == HalfFilled();
    assert Run(HalfSubmitted(), [second]).0 == HalfFilled();
    assert RunAllowed(HalfFilled(), []);
    assert RunAllowed(HalfSubmitted(), [second]);
  }

  lemma HalfReserve()
    ensures TotalReserved(HalfFilled()) == 1 && AvailableCash(HalfFilled()).Err?
  {
    var d := HalfFilled();
    MapSumRemove(d.orders, "id", OpenBuyReserve(0));
    assert d.orders - {"id"} == map[];
    assert OpenBuyReserve(0)(d.orders["id"]) == 1;
    AvailableCashMeaning(d);
  }

  /** Reserved cash can exceed cash: two units at 0.5 reserve one, yet each unit filled costs one. */
  lemma PartialFillOverdrawsReserve()
    ensures RunAllowed(NewEngine(1, 0, 10_000).value, HalfRun())
    ensures var d := Run(NewEngine(1, 0, 10_000).value, HalfRun()).0;
      d.cash < TotalReserved(d) && AvailableCash(d).Err?
  {
    hide Run, RunAllowed;
    HalfRuns();
    HalfReserve();
  }

  /** From there the rest of the order can no longer be filled: the next print that would do so is refused. */
  lemma OverdrawnFillRefused()
    ensures var d := Run(NewEngine(1, 0, 10_000).value, HalfRun()).0;
      Perform(d, TradePrint("a", 500_000, Some(1), Some(Sell), 3, 3)) == Err("paper_cash_changed_before_fill")
  {
    hide Run, ProcessTrade, ParticipationAmount;
    HalfRuns();
    HalfAmounts();
    SinglePrint(HalfFilled(), 1, 3, 3);
  }

  // ----- An average above one -----

  function FeeIntent(): Intent {
    Intent("a", Buy, 900_000, SCALE, 10)
  }

  function FeeSubmitted(): Engine {
    Engine(2 * SCALE, 2 * SCALE, 0, 0, 10_000, 10_000, map[], map["id" := RestingOrder(FeeIntent(), "id", 1, None)])
  }

  function FeeRun(): seq<Action> {
    [Submitting(FeeIntent(), "id", 1), TradePrint("a", 900_000, Some(SCALE), Some(Sell), 2, 2)]
  }

  lemma FeeAmounts()
    ensures MulCeil(900_000, SCALE) == Ok(900_000) && BpsAmount(900_000, 10_000) == Ok(900_000)
    ensures Mul(900_000, SCALE) == Ok(900_000) && Mul(0, 0) == Ok(0) && Div(1_800_000, SCALE) == Ok(1_800_000)
    ensures ParticipationAmount(SCALE, 10_000) == Ok(SCALE)
  {
  }

  lemma FeeSubmits()
    ensures Submit(NewEngine(2 * SCALE, 10_000, 10_000).value, FeeIntent(), "id", 1) == Ok(FeeSubmitted())
  {
    var e := NewEngine(2 * SCALE, 10_000, 10_000).value;
    FeeAmounts();
    assert e.orders.Keys == {};
    assert ReservedCash([], e.orders, 10_000, 0) == Ok(0);
    assert AvailableCash(e) == Ok(2 * SCALE);
    assert BuyReserve(900_000, SCALE, 10_000) == Ok(1_800_000);
  }

  lemma FeeBought()
    ensures var r := ApplyBuy(Timed(FeeSubmitted(), 2), "a", SCALE, 900_000, 900_000, 900_000);
      r.Ok? && r.value.positions == map["a" := Position("a", SCALE, 1_800_000, 0)]
  {
    hide Mul, Div;
    FeeAmounts();
  }

  lemma FeeFills()
    ensures var r := ProcessTrade(FeeSubmitted(), "a", 900_000, Some(SCALE), Some(Sell), 2, 2);
      r.Ok? && r.value.0.positions == map["a" := Position("a", SCALE, 1_800_000, 0)]
  {
    hide ApplyBuy, MulCeil, BpsAmount, ParticipationAmount, ProcessTrade;
    FeeAmounts();
    FeeBought();
    SinglePrint(FeeSubmitted(), SCALE, 2, 2);
  }

  /** One unit bought at 0.9 with a 100% fee has an average of 1.8, which validation refuses. */
  lemma FeesCanBreakValidation()
    ensures var start := NewEngine(2 * SCALE, 10_000, 10_000).value;
      && RunAllowed(start, FeeRun())
      && ValidateState(start).Ok?
      && ValidateState(Pruned(Run(start, FeeRun()).0)) == Err("paper_transition_position_invalid")
  {
    hide Submit, ProcessTrade;
    var start := NewEngine(2 * SCALE, 10_000, 10_000).value;
    var first, second := FeeRun()[0], FeeRun()[1];
    FeeSubmits();
    FeeFills();
    assert FeeRun()[1..] == [second] && [second][1..] == [];
    assert Step(start, first) == (FeeSubmitted(), []);
    var d := Step(FeeSubmitted(), second).0;
    assert Run(FeeSubmitted(), [second]).0 == d;
    assert RunAllowed(d, []);
    assert RunAllowed(FeeSubmitted(), [second]);
    StartsSound(2 * SCALE, 10_000, 10_000, FeeRun());
    assert !PositionValid("a", d.positions["a"]);
  }

  /** Whatever else a reached state holds, its totals validate. */
  lemma StartsSound(startingCash: int, feeBps: nat, participationBps: nat, actions: seq<Action>)
    requires NewEngine(startingCash, feeBps, participationBps).Ok?
    requires RunAllowed(NewEngine(startingCash, feeBps, participationBps).value, actions)
    ensures TotalsValid(Run(NewEngine(startingCash, feeBps, participationBps).value, actions).0)
  {
    hide Run, RunAllowed;
    RunKeepsInv(NewEngine(startingCash, feeBps, participationBps).value, actions, 0);
  }

  // ----- The same print twice -----

  function OneIntent(): Intent {
    Intent("a", Buy, 500_000, 1, 10)
  }

  /** Two one-unit buys; the first `filled` of them have each been filled by a print at time 2. */
  function Pair(filled: nat): Engine
    requires filled <= 2
  {
    var whole := Order("", OneIntent(), Filled, Some(1), 1, 0, 0, None, Some(2));
    Engine(10, 10 - filled, 0, 0, 0, 10_000, if filled == 0 then map[] else map["a" := Position("a", filled, 0, 0)],
           map["x" := if filled >= 1 then whole.(clientOrderId := "x") else RestingOrder(OneIntent(), "x", 1, None),
               "y" := if filled == 2 then whole.(clientOrderId := "y") else RestingOrder(OneIntent(), "y", 1, None)])
  }

  function PairRun(): seq<Action> {
    [Submitting(OneIntent(), "x", 1), Submitting(OneIntent(), "y", 1), OnePrint(), OnePrint()]
  }

  function OnePrint(): Action {
    TradePrint("a", 500_000, Some(1), Some(Sell), 2, 2)
  }

  lemma PairKeys()
    ensures SortedKeys({"x", "y"}) == ["x", "y"]
  {
    assert Less("x", "y");
    assert IsMinimum("x", {"x", "y"});
    MinimumUnique({"x", "y"}, Minimum({"x", "y"}), "x");
    assert {"x", "y"} - {"x"} == {"y"};
    SingleKey("y");
  }

  lemma PairSubmits()
    ensures var first := Submit(NewEngine(10, 0, 10_000).value, OneIntent(), "x", 1);
      first.Ok? && Submit(first.value, OneIntent(), "y", 1) == Ok(Pair(0))
  {
    var e := NewEngine(10, 0, 10_000).value;
    assert e.orders.Keys == {};
    assert ReservedCash([], e.orders, 0, 0) == Ok(0);
    assert BuyReserve(500_000, 1, 0) == Ok(1);
    var first := Submit(e, OneIntent(), "x", 1).value;
    assert first.orders == map["x" := RestingOrder(OneIntent(), "x", 1, None)];
    SingleKey("x");
    assert first.orders.Keys == {"x"} && ["x"][1..] == [];
    assert ReservedCash([], first.orders, 0, 1) == Ok(1);
    assert ReservedCash(["x"], first.orders, 0, 0) == Ok(1);
    assert first.orders["y" := RestingOrder(OneIntent(), "y", 1, None)] == Pair(0).orders;
  }

  lemma PairBought(filled: nat, e: Engine)
    requires filled < 2 && e.cash == 10 - filled && e.feesPaid == 0 && e.positions == Pair(filled).positions
    ensures ApplyBuy(e, "a", 1, 500_000, 1, 0) == Ok(e.(cash := 9 - filled, positions := Pair(filled + 1).positions))
  {
    HalfAmounts();
    assert Mul(0, 1) == Ok(0) && Div(0, 2) == Ok(0);
    if filled == 1 {
      assert e.positions["a" := Position("a", 2, 0, 0)] == map["a" := Position("a", 2, 0, 0)];
    }
  }

  function PairId(filled: nat): string {
    if filled == 0 then "x" else "y"
  }

  function PairTimed(filled: nat): Engine
    requires filled < 2
  {
    var e, id := Pair(filled), PairId(filled);
    e.(orders := e.orders[id := e.orders[id].(lastTradeTimestamp := Some(2))])
  }

  lemma PairPass(filled: nat)
    requires filled < 2
    ensures PassForTrade(TradePass(Pair(filled).orders, [], 1), ["x", "y"], Print("a", 500_000, Buy, 2), 2)
      == TradePass(PairTimed(filled).orders, [Plan(PairId(filled), 1, 500_000)], 0)
  {
    var t := Print("a", 500_000, Buy, 2);
    var p := TradePass(Pair(filled).orders, [], 1);
    var after := TradePass(PairTimed(filled).orders, [Plan(PairId(filled), 1, 500_000)], 0);
    assert VisitForTrade(p, PairId(filled), t, 2) == after;
    assert ["x", "y"][1..] == ["y"] && ["y"][1..] == [];
    assert PassForTrade(after, [], t, 2) == after;
    if filled == 0 {
      assert VisitForTrade(after, "y", t, 2) == after;
    } else {
      assert VisitForTrade(p, "x", t, 2) == p;
    }
  }

  lemma PairFills(filled: nat)
    requires filled < 2
    ensures var one := ApplyFillAtPrice(PairTimed(filled), PairId(filled), 1, 500_000, 2);
      one.Ok? && one.value.0 == Pair(filled + 1)
  {
    hide ApplyBuy, MulCeil;
    var e := PairTimed(filled);
    HalfAmounts();
    PairBought(filled, e);
    assert FilledOrder(e.orders[PairId(filled)], 1, 0) == Ok(Pair(filled + 1).orders[PairId(filled)]);
    assert e.orders[PairId(filled) := Pair(filled + 1).orders[PairId(filled)]] == Pair(filled + 1).orders;
  }

  /** Each of the two prints fills the first order still open, although both carry the same timestamp. */
  lemma PairPrints(filled: nat)
    requires filled < 2
    ensures var r := ProcessTrade(Pair(filled), "a", 500_000, Some(1), Some(Sell), 2, 2);
      r.Ok? && r.value.0 == Pair(filled + 1)
  {
    hide ApplyFillAtPrice, ParticipationAmount, PassForTrade, Pair, PairTimed;
    HalfAmounts();
    PairKeys();
    PairShape(filled);
    PairPass(filled);
    PairFills(filled);
    var plan := Plan(PairId(filled), 1, 500_000);
    assert [plan][1..] == [] && PositivePlans([]) == [] && PositivePlans([plan]) == [plan];
    var one := ApplyFillAtPrice(PairTimed(filled), PairId(filled), 1, 500_000, 2);
    assert ApplyPlans(one.value.0, [], 2, [] + [one.value.1]) == Ok((one.value.0, [] + [one.value.1]));
  }

  lemma PairShape(filled: nat)
    requires filled < 2
    ensures Pair(filled).orders.Keys == {"x", "y"} && Pair(filled).participationBps == 10_000
    ensures PairTimed(filled) == Pair(filled).(orders := PairTimed(filled).orders)
  {
  }

  /** A print repeated with its own timestamp can fill again: the first one passed over the second order. */
  lemma RepeatedPrintFillsAgain()
    ensures var start := NewEngine(10, 0, 10_000).value;
      && RunAllowed(start, PairRun())
      && Run(start, PairRun()[..3]).0 == Pair(1) && Run(start, PairRun()).0 == Pair(2)
  {
    hide Submit, ProcessTrade, Pair;
    PairSubmits();
    PairPrints(0);
    PairPrints(1);
    var start, run := NewEngine(10, 0, 10_000).value, PairRun();
    var first := Submit(start, OneIntent(), "x", 1).value;
    assert Step(start, run[0]) == (first, []) && Step(first, run[1]) == (Pair(0), []);
    assert Step(Pair(0), OnePrint()).0 == Pair(1) && Step(Pair(1), OnePrint()).0 == Pair(2);
    var print1, print2 := [OnePrint()], [OnePrint(), OnePrint()];
    assert run[1..][1..] == print2 && print2[1..] == print1 && print1[1..] == [];
    assert run[..3][1..][1..] == print1;
    assert Run(Pair(1), print1).0 == Pair(2) && Run(Pair(0), print1).0 == Pair(1);
    assert Run(Pair(0), print2).0 == Pair(2);
    assert Run(first, run[1..]).0 == Pair(2) && Run(first, run[..3][1..]).0 == Pair(1);
    assert RunAllowed(Pair(2), []) && RunAllowed(Pair(1), print1) && RunAllowed(Pair(0), print2) && RunAllowed(first, run[1..]);
  }
}
