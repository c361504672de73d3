/** Size, average price and realized profit of a position as a replay of its fills, with fees and every rounding. */
module PaperLots {
  import opened Prelude
  import opened Ordered
  import opened FixedPoint
  import opened Book
  import opened MarketEvents
  import opened PaperMath
  import opened PaperCore
  import opened PaperInvariant
  import opened PaperPlans
  import opened PaperOrders
  import opened PaperFlatten
  import opened PaperFlattenProofs

  datatype Lot = Lot(size: int, average: int, realized: int)

  const NO_LOT := Lot(0, 0, 0)

  function LotOf(e: Engine, assetId: string): Lot {
    if assetId in e.positions then
      Lot(e.positions[assetId].size, e.positions[assetId].averagePrice, e.positions[assetId].realizedPnl)
    else NO_LOT
  }

  function FillFee(f: Fill, bps: nat): int {
    FeeOf(Notional(f.price, f.size), bps)
  }

  /**
   * A buy moves the average to the accumulated cost per unit; a sell leaves it, or clears it with the position, and realizes
   * what it brings in less what was paid on average.
   */
  function LotAfter(lot: Lot, f: Fill, bps: nat): Lot {
    if f.side.Buy? then
      var size := lot.size + f.size;
      Lot(size, if size > 0 then NewAverage(lot.average, lot.size, f.price, f.size, FillFee(f, bps)) else 0, lot.realized)
    else
      Lot(lot.size - f.size, if lot.size == f.size then 0 else lot.average,
          lot.realized + Notional(f.price, f.size) - FillFee(f, bps) - TruncDiv(lot.average * f.size, SCALE))
  }

  function Next(lot: Lot, f: Fill, assetId: string, bps: nat): Lot {
    if f.assetId == assetId then LotAfter(lot, f, bps) else lot
  }

  /** The lot of one asset after a list of fills. */
  function Replay(lot: Lot, fills: seq<Fill>, assetId: string, bps: nat): Lot
    decreases |fills|
  {
    if fills == [] then lot else Replay(Next(lot, fills[0], assetId, bps), fills[1..], assetId, bps)
  }

  predicate FillFits(lot: Lot, f: Fill) {
    0 < f.price < SCALE && f.size > 0 && (f.side.Sell? ==> f.size <= lot.size)
  }

  /** Each fill of the asset has a price below one and, if it sells, sells no more than is held at its turn. */
  predicate Fits(lot: Lot, fills: seq<Fill>, assetId: string, bps: nat)
    decreases |fills|
  {
    fills == []
    || ((fills[0].assetId == assetId ==> FillFits(lot, fills[0])) && Fits(Next(lot, fills[0], assetId, bps), fills[1..], assetId, bps))
  }

  /** The fills lead from one lot to the other. */
  predicate Traces(lot: Lot, fills: seq<Fill>, assetId: string, bps: nat, last: Lot) {
    Fits(lot, fills, assetId, bps) && Replay(lot, fills, assetId, bps) == last
  }

  lemma {:induction false} TracesJoin(lot: Lot, fills: seq<Fill>, middle: Lot, more: seq<Fill>, last: Lot, assetId: string, bps: nat)
    requires Traces(lot, fills, assetId, bps, middle) && Traces(middle, more, assetId, bps, last)
    ensures Traces(lot, fills + more, assetId, bps, last)
    decreases |fills|
  {
    hide LotAfter;
    if fills == [] {
      assert fills + more == more;
    } else {
      assert (fills + more)[1..] == fills[1..] + more;
      TracesJoin(Next(lot, fills[0], assetId, bps), fills[1..], middle, more, last, assetId, bps);
    }
  }

  // ----- What a replay says about size and average -----

  predicate Sane(lot: Lot) {
    lot.size >= 0 && lot.average >= 0
  }

  lemma LotStaysSane(lot: Lot, f: Fill, bps: nat)
    requires Sane(lot) && FillFits(lot, f) && bps <= 10_000
    ensures Sane(LotAfter(lot, f, bps)) && FillFee(f, bps) >= 0
  {
    hide Notional, FeeOf, NewAverage, NewCost;
    NotionalFacts(f.price, f.size);
    FeeFacts(Notional(f.price, f.size), bps);
    if f.side.Buy? {
      BuyValue(lot.average, lot.size, f.price, f.size, bps);
    }
  }

  /** Conservation: the size moves by exactly what was bought less what was sold. */
  lemma {:induction false} ReplaySize(lot: Lot, fills: seq<Fill>, assetId: string, bps: nat)
    ensures Replay(lot, fills, assetId, bps).size == lot.size + FillSum(fills, NetOf(assetId))
    decreases |fills|
  {
    hide NewAverage, FillFee;
    if fills != [] {
      ReplaySize(Next(lot, fills[0], assetId, bps), fills[1..], assetId, bps);
    }
  }

  /** Without fees no average exceeds what was paid. */
  lemma {:induction false} ReplayFeeFree(lot: Lot, fills: seq<Fill>, assetId: string, bound: int)
    requires Sane(lot) && lot.average <= bound && Fits(lot, fills, assetId, 0)
    requires forall f | f in fills && f.assetId == assetId && f.side.Buy? :: f.price <= bound
    ensures Replay(lot, fills, assetId, 0).average <= bound
    decreases |fills|
  {
    hide NewAverage, Notional;
    if fills != [] {
      var f := fills[0];
      assert f in fills && forall g | g in fills[1..] :: g in fills;
      if f.assetId == assetId {
        LotStaysSane(lot, f, 0);
        if f.side.Buy? {
          AverageAtMost(lot.average, lot.size, f.price, f.size, bound);
        }
      }
      ReplayFeeFree(Next(lot, f, assetId, 0), fills[1..], assetId, bound);
    }
  }

  /** The accumulated cost of a buy stays under `(SCALE + 1) / SCALE` per unit held: computable before the fill. */
  predicate BuyGuard(lot: Lot, f: Fill, bps: nat) {
    f.side.Buy? ==>
      NewCost(lot.average, lot.size, f.price, f.size, FillFee(f, bps)) * SCALE < (SCALE + 1) * (lot.size + f.size)
  }

  predicate Guarded(lot: Lot, fills: seq<Fill>, assetId: string, bps: nat)
    decreases |fills|
  {
    fills == []
    || ((fills[0].assetId == assetId ==> BuyGuard(lot, fills[0], bps)) && Guarded(Next(lot, fills[0], assetId, bps), fills[1..], assetId, bps))
  }

  /** One fill keeps the average within one exactly when it meets the guard; a sell always does. */
  lemma FillWithinOne(lot: Lot, f: Fill, bps: nat)
    requires Sane(lot) && lot.average <= SCALE && FillFits(lot, f) && bps <= 10_000
    ensures LotAfter(lot, f, bps).average <= SCALE <==> BuyGuard(lot, f, bps)
  {
    hide Notional, FeeOf, NewAverage, NewCost;
    LotStaysSane(lot, f, bps);
    if f.side.Buy? {
      AverageWithinOne(lot.average, lot.size, f.price, f.size, FillFee(f, bps));
    }
  }

  /** Every buy meets the guard exactly when the average is within one after each of the fills. */
  lemma {:induction false} GuardedExactly(lot: Lot, fills: seq<Fill>, assetId: string, bps: nat)
    requires Sane(lot) && lot.average <= SCALE && Fits(lot, fills, assetId, bps) && bps <= 10_000
    ensures Guarded(lot, fills, assetId, bps) <==>
      forall i | 0 <= i <= |fills| :: Replay(lot, fills[..i], assetId, bps).average <= SCALE
    decreases |fills|
  {
    hide LotAfter, FillFits, BuyGuard;
    if fills != [] {
      var f, rest := fills[0], fills[1..];
      var next := Next(lot, f, assetId, bps);
      forall i | 0 < i <= |fills| ensures Replay(lot, fills[..i], assetId, bps) == Replay(next, rest[..i - 1], assetId, bps) {
        assert fills[..i][0] == f && fills[..i][1..] == rest[..i - 1];
      }
      if f.assetId == assetId {
        LotStaysSane(lot, f, bps);
        FillWithinOne(lot, f, bps);
      }
      assert Replay(lot, fills[..1], assetId, bps) == Replay(next, rest[..0], assetId, bps) == next;
      if next.average <= SCALE {
        GuardedExactly(next, rest, assetId, bps);
        forall i | 0 <= i <= |rest| ensures Replay(next, rest[..i], assetId, bps) == Replay(lot, fills[..i + 1], assetId, bps) {
          assert rest[..i] == rest[..(i + 1) - 1];
        }
      }
    }
  }

  // ----- The engine's positions are replays of its fills -----

  lemma HeldNonNegative(e: Engine, assetId: string)
    requires Shape(e)
    ensures Held(e, assetId) >= 0
  {
    assert assetId in e.positions ==> PositionOk(assetId, e.positions[assetId]);
  }

  lemma FillLot(e: Engine, id: string, quantity: int, price: int, now: nat, assetId: string)
    requires Shape(e) && ApplyFillAtPrice(e, id, quantity, price, now).Ok?
    ensures var (d, f) := ApplyFillAtPrice(e, id, quantity, price, now).value;
      && (f.assetId == assetId ==> FillFits(LotOf(e, assetId), f))
      && LotOf(d, assetId) == Next(LotOf(e, assetId), f, assetId, e.feeBps) && d.feeBps == e.feeBps
  {
    hide ApplyFillAtPrice, ApplyBuy, ApplySell, Notional, FeeOf, NewAverage, TruncDiv;
    var moved, filled := FillParts(e, id, quantity, price, now);
    var i := e.orders[id].intent;
    var notional := Notional(price, quantity);
    if i.side.Buy? {
      HeldNonNegative(e, i.assetId);
      BuyParts(e, i.assetId, quantity, price, notional, FeeOf(notional, e.feeBps));
    } else {
      SellParts(e, i.assetId, quantity, notional, FeeOf(notional, e.feeBps));
    }
  }

  lemma {:induction false} PlansLot(e: Engine, plans: seq<Plan>, now: nat, assetId: string)
    requires Shape(e) && Ready(e.orders, plans) && ApplyPlans(e, plans, now, []).Ok?
    ensures var (d, fills) := ApplyPlans(e, plans, now, []).value;
      Traces(LotOf(e, assetId), fills, assetId, e.feeBps, LotOf(d, assetId))
    decreases |plans|
  {
    hide ApplyFillAtPrice, Shape, Ready, LotOf, LotAfter, FillFits;
    if plans != [] {
      var next, f := PlansHead(e, plans, now);
      FillLot(e, plans[0].id, plans[0].quantity, plans[0].price, now, assetId);
      PlansLot(next, plans[1..], now, assetId);
      var fills := ApplyPlans(e, plans, now, []).value.1;
      assert fills[0] == f && fills[1..] == ApplyPlans(next, plans[1..], now, []).value.1;
    }
  }

  lemma SaleLot(e: Engine, plan: AssetPlan, id: string, now: nat, k: nat, assetId: string)
    requires SaleReady(e, plan, id, now, k)
    ensures var (d, fills) := ApplyPlans(WithSellOrder(e, plan, id, now), ClipPlans(plan.clips, id), now, []).value;
      Traces(LotOf(e, assetId), fills, assetId, e.feeBps, LotOf(d, assetId))
  {
    hide ApplyPlans, Ready, Traces;
    SaleStarts(e, plan, id, now, k);
    PlansLot(WithSellOrder(e, plan, id, now), ClipPlans(plan.clips, id), now, assetId);
    assert LotOf(WithSellOrder(e, plan, id, now), assetId) == LotOf(e, assetId);
  }

  /** Executing a flatten's plans, after fills that led from `first` to the engine's lot. */
  lemma {:induction false} ExecuteLot(e: Engine, plans: seq<AssetPlan>, idFor: string -> string, now: nat, fills: seq<Fill>, k: nat,
                                      assetId: string, first: Lot)
    requires Inv(e, k) && NoneOpen(e) && Executable(e, plans, idFor) && ExecutePlans(e, plans, idFor, now, fills).Ok?
    requires Traces(first, fills, assetId, e.feeBps, LotOf(e, assetId))
    ensures var (d, all) := ExecutePlans(e, plans, idFor, now, fills).value;
      Traces(first, all, assetId, e.feeBps, LotOf(d, assetId))
    decreases |plans|
  {
    hide Inv, NoneOpen, Traces, LotOf, ApplyPlans, WithSellOrder;
    if plans != [] && plans[0].clips == [] {
      ExecuteLot(e, plans[1..], idFor, now, fills, k, assetId, first);
    } else if plans != [] {
      var id := idFor(plans[0].position.assetId);
      var resting := WithSellOrder(e, plans[0], id, now);
      var clips := ClipPlans(plans[0].clips, id);
      FillsAccumulate(resting, clips, now, fills);
      ExecutableAfter(e, plans, idFor, now, k);
      SaleCloses(e, plans[0], id, now, k);
      SaleKeepsInv(e, plans[0], id, now, k);
      SaleLot(e, plans[0], id, now, k, assetId);
      var (next, sold) := ApplyPlans(resting, clips, now, []).value;
      TracesJoin(first, fills, LotOf(e, assetId), sold, LotOf(next, assetId), assetId, e.feeBps);
      ExecuteLot(next, plans[1..], idFor, now, fills + sold, k, assetId, first);
    }
  }

  lemma FlattenLot(e: Engine, books: map<string, BookState>, now: nat, limits: Limits, idFor: string -> string, k: nat, assetId: string)
    requires Inv(e, k) && FreshIds(e, idFor) && Flatten(e, books, now, limits, idFor).Ok?
    ensures var (d, fills) := Flatten(e, books, now, limits, idFor).value;
      Traces(LotOf(e, assetId), fills, assetId, e.feeBps, LotOf(d, assetId))
  {
    hide Inv, NoneOpen, Executable, PlanAssets, ExecutePlans, PlansSound, SortedKeys;
    var plans := FlattenExecutes(e, books, now, limits, idFor, k);
    PlansExecutable(e, plans, books, limits, idFor, k);
    var cleared := CancelWhere(e, OpenOrders()).0;
    assert LotOf(cleared, assetId) == LotOf(e, assetId);
    ExecuteLot(cleared, plans, idFor, now, [], k, assetId, LotOf(e, assetId));
  }
}
