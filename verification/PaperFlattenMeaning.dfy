/** When a flatten succeeds, and what its fills may be, in terms of the books it is given. */
module PaperFlattenMeaning {
  import opened Prelude
  import opened Ordered
  import opened Sums
  import opened FixedPoint
  import opened Book
  import opened MarketEvents
  import MarketMeaning
  import opened PaperCore
  import opened PaperInvariant
  import opened PaperPlans
  import opened PaperOrders
  import opened PaperMatching
  import opened PaperHeadroom
  import opened PaperFlatten
  import opened PaperFlattenProofs

  /** A verified, tradeable book with a bid, received recently and without much delay. */
  ghost predicate Sellable(book: BookState, now: nat, limits: Limits) {
    && book.tradeable && MarketMeaning.HasHash(book.hash) && book.bestBid.Some?
    && 0 < book.receivedAt <= now && now - book.receivedAt <= limits.maxBookAge
    && book.exchangeTimestamp <= book.receivedAt && book.receivedAt - book.exchangeTimestamp <= limits.maxEventLag
  }

  /** The lowest price of the band: the best bid less the slippage, never negative. */
  ghost function Floor(book: BookState, limits: Limits): int
    requires book.bestBid.Some?
  {
    Max(0, book.bestBid.value - book.tickSize * limits.maxSlippageTicks)
  }

  /** The band and the shares of the levels are numbers of 128 bits, and the levels are prices and sizes. */
  ghost predicate Representable(book: BookState, limits: Limits, bps: nat) {
    && InRange(book.tickSize * limits.maxSlippageTicks)
    && (book.bestBid.Some? ==> InRange(book.bestBid.value - book.tickSize * limits.maxSlippageTicks))
    && forall l | l in book.bids :: 0 < l.price < SCALE && 0 <= l.size && InRange(l.size * (bps * 100))
  }

  // ----- Planning -----

  lemma FreshMeaning(book: BookState, now: nat, limits: Limits)
    ensures HasText(book.hash) && FreshTradeable(book, now, limits) && book.bestBid.Some? <==> Sellable(book, now, limits)
  {
    MarketMeaning.HashMeaning(book.hash);
  }

  lemma FloorMeaning(book: BookState, limits: Limits)
    requires MinimumPrice(book, limits).Ok?
    ensures book.bestBid.Some? && MinimumPrice(book, limits).value == Floor(book, limits)
  {
  }

  lemma {:induction false} ClipsExist(levels: seq<Level>, remaining: int, minimum: int, bps: nat)
    requires forall l | l in levels :: InRange(l.size * (bps * 100))
    ensures ClipLevels(levels, remaining, minimum, bps).Ok?
    decreases |levels|
  {
    if levels != [] && remaining != 0 && levels[0].price >= minimum {
      assert levels[0] in levels;
      MulTruncates(levels[0].size, bps * 100);
      var quantity := Min(remaining, ParticipationAmount(levels[0].size, bps).value);
      ClipsExist(levels[1..], if quantity > 0 then remaining - quantity else remaining, minimum, bps);
    }
  }

  /** A held asset can be planned exactly when its book is sellable. */
  lemma PlanExists(position: Position, book: BookState, now: nat, limits: Limits, bps: nat)
    requires Representable(book, limits, bps)
    ensures PlanAsset(position, book, now, limits, bps).Ok? <==> Sellable(book, now, limits)
  {
    FreshMeaning(book, now, limits);
    if Sellable(book, now, limits) {
      SortedSameLevels(book.bids, true);
      ClipsExist(Sorted(book.bids, true), position.size, Floor(book, limits), bps);
    }
  }

  ghost predicate AllRepresentable(e: Engine, books: map<string, BookState>, limits: Limits) {
    forall a | a in books :: Representable(books[a], limits, e.participationBps)
  }

  ghost predicate HasSellable(e: Engine, a: string, books: map<string, BookState>, now: nat, limits: Limits) {
    a in e.positions && e.positions[a].size > 0 ==> a in books && Sellable(books[a], now, limits)
  }

  lemma {:induction false} PlansExist(e: Engine, assets: seq<string>, books: map<string, BookState>, now: nat, limits: Limits, plans: seq<AssetPlan>)
    requires Shape(e) && (forall a | a in assets :: a in e.positions) && AllRepresentable(e, books, limits)
    ensures PlanAssets(e, assets, books, now, limits, plans).Ok? <==> forall a | a in assets :: HasSellable(e, a, books, now, limits)
    decreases |assets|
  {
    hide Sellable, Representable, PlanAsset;
    if assets != [] {
      var first, rest := assets[0], assets[1..];
      var position := e.positions[first];
      assert first in assets && PositionOk(first, position);
      assert forall a :: a in assets <==> a == first || a in rest;
      if position.size <= 0 {
        PlansExist(e, rest, books, now, limits, plans);
      } else if first in books {
        PlanExists(position, books[first], now, limits, e.participationBps);
        var plan := PlanAsset(position, books[first], now, limits, e.participationBps);
        if plan.Ok? {
          PlansExist(e, rest, books, now, limits, plans + [plan.value]);
        }
      }
    }
  }

  /** A flatten that succeeds had a sellable book for every held asset. */
  lemma FlattenNeedsBooks(e: Engine, books: map<string, BookState>, now: nat, limits: Limits, idFor: string -> string, a: string)
    requires Shape(e) && AllRepresentable(e, books, limits) && Flatten(e, books, now, limits, idFor).Ok?
    ensures HasSellable(e, a, books, now, limits)
  {
    hide Shape, HasSellable, ExecutePlans;
    PlansExist(e, SortedKeys(e.positions.Keys), books, now, limits, []);
    if a in e.positions {
      assert a in SortedKeys(e.positions.Keys);
    } else {
      NotHeld(e, books, now, limits, a);
    }
  }

  lemma NotHeld(e: Engine, books: map<string, BookState>, now: nat, limits: Limits, a: string)
    requires a !in e.positions
    ensures HasSellable(e, a, books, now, limits)
  {
  }

  /** Each fill sells into a listed bid, not below the band, and not more than the share of that level. */
  ghost predicate SoldInBand(f: Fill, book: BookState, limits: Limits, bps: nat) {
    && f.side == Sell && book.bestBid.Some? && f.price >= Floor(book, limits)
    && f.size > 0 && exists l :: l in book.bids && l.price == f.price && f.size <= l.size * bps / 10_000
  }

  lemma FlattenFillMeaning(e: Engine, books: map<string, BookState>, now: nat, limits: Limits, idFor: string -> string, k: nat, f: Fill)
    requires Inv(e, k) && FreshIds(e, idFor) && Flatten(e, books, now, limits, idFor).Ok?
    requires f in Flatten(e, books, now, limits, idFor).value.1
    ensures f.assetId in books && SoldInBand(f, books[f.assetId], limits, e.participationBps)
  {
    hide Inv, Flatten;
    FlattenSound(e, books, now, limits, idFor, k);
    assert FlattenFillAllowed(f, books, limits, e.participationBps);
    FloorMeaning(books[f.assetId], limits);
  }

  // ----- Execution -----

  function SoldTotal(plans: seq<AssetPlan>): int {
    if plans == [] then 0 else ClipTotal(plans[0].clips) + SoldTotal(plans[1..])
  }

  ghost predicate Priced(clips: seq<Clip>) {
    forall c | c in clips :: c.quantity > 0 && 0 < c.price < SCALE
  }

  lemma {:induction false} LowestIsLeast(clips: seq<Clip>)
    requires clips != []
    ensures forall c | c in clips :: LowestPrice(clips) <= c.price
  {
    assert clips == [clips[0]] + clips[1..];
    if |clips| > 1 {
      LowestIsLeast(clips[1..]);
    }
  }

  lemma {:induction false} ClipsPlanned(clips: seq<Clip>, id: string)
    ensures PlannedTotal(ClipPlans(clips, id)) == ClipTotal(clips)
  {
    if clips != [] {
      ClipsPlanned(clips[1..], id);
      assert ClipPlans(clips, id)[1..] == ClipPlans(clips[1..], id);
    }
  }

  lemma {:induction false} TotalNonNegative(clips: seq<Clip>)
    requires Priced(clips)
    ensures ClipTotal(clips) >= 0
  {
    if clips != [] {
      assert clips[0] in clips;
      TotalNonNegative(clips[1..]);
    }
  }

  lemma RestingRoom(e: Engine, plan: AssetPlan, id: string, now: nat, amount: int, k: nat)
    requires Inv(e, k) && Roomy(e, amount) && plan.clips != []
    ensures Roomy(WithSellOrder(e, plan, id, now), amount)
  {
    hide MapSum;
    WithinWealth(e, plan.position.assetId);
  }

  lemma ClipsAcceptable(e: Engine, plan: AssetPlan, id: string, now: nat)
    requires plan.clips != [] && Priced(plan.clips)
    ensures var plans := ClipPlans(plan.clips, id);
      var resting := WithSellOrder(e, plan, id, now).orders;
      Acceptable(resting, plans) && forall p | p in plans :: p.id in resting && resting[p.id].intent.side.Sell?
  {
    ClipPlansFacts(plan.clips, id);
    LowestIsLeast(plan.clips);
    var plans := ClipPlans(plan.clips, id);
    forall p | p in plans ensures p.id == id && LowestPrice(plan.clips) <= p.price < SCALE {
      var i :| 0 <= i < |plans| && plans[i] == p;
      assert plan.clips[i] in plan.clips;
    }
  }

  /** The sale of one asset succeeds, and leaves the room it did not use. */
  lemma SaleSucceeds(e: Engine, plan: AssetPlan, id: string, now: nat, amount: int, k: nat)
    requires Inv(e, k) && NoneOpen(e) && id !in e.orders && plan.clips != [] && Priced(plan.clips)
    requires ClipTotal(plan.clips) <= Held(e, plan.position.assetId) && Roomy(e, amount) && ClipTotal(plan.clips) <= amount
    ensures SaleReady(e, plan, id, now, k)
    ensures Roomy(ApplyPlans(WithSellOrder(e, plan, id, now), ClipPlans(plan.clips, id), now, []).value.0, amount - ClipTotal(plan.clips))
  {
    hide Inv, Roomy, ApplyPlans, Affordable, SellOrder;
    var resting, plans := WithSellOrder(e, plan, id, now), ClipPlans(plan.clips, id);
    OpenedReady(e, plan, id, now, k);
    RestingRoom(e, plan, id, now, amount, k);
    ClipsAcceptable(e, plan, id, now);
    ClipsPlanned(plan.clips, id);
    SellsAffordable(resting.cash, plans, resting.orders, resting.feeBps);
    PlansDecided(resting, plans, now, amount, k);
    PlansLeaveRoom(resting, plans, now, amount, k);
  }

  /** Short of overflow, planned sales always execute. */
  lemma {:induction false} ExecuteSucceeds(e: Engine, plans: seq<AssetPlan>, idFor: string -> string, now: nat, fills: seq<Fill>, amount: int, k: nat)
    requires Inv(e, k) && NoneOpen(e) && Executable(e, plans, idFor) && (forall i | 0 <= i < |plans| :: Priced(plans[i].clips))
    requires Roomy(e, amount) && SoldTotal(plans) <= amount
    ensures ExecutePlans(e, plans, idFor, now, fills).Ok?
    decreases |plans|
  {
    hide Inv, NoneOpen, Roomy, ApplyPlans, WithSellOrder, Priced;
    if plans != [] {
      assert forall i | 0 <= i < |plans[1..]| :: plans[1..][i] == plans[i + 1];
      if plans[0].clips == [] {
        ExecuteSucceeds(e, plans[1..], idFor, now, fills, amount, k);
      } else {
        var id := idFor(plans[0].position.assetId);
        RestNonNegative(plans[1..]);
        SaleSucceeds(e, plans[0], id, now, amount, k);
        var resting, clips := WithSellOrder(e, plans[0], id, now), ClipPlans(plans[0].clips, id);
        FillsAccumulate(resting, clips, now, fills);
        ExecutableAfter(e, plans, idFor, now, k);
        SaleCloses(e, plans[0], id, now, k);
        SaleKeepsInv(e, plans[0], id, now, k);
        var (next, sold) := ApplyPlans(resting, clips, now, []).value;
        ExecuteSucceeds(next, plans[1..], idFor, now, fills + sold, amount - ClipTotal(plans[0].clips), k);
      }
    }
  }

  lemma {:induction false} RestNonNegative(plans: seq<AssetPlan>)
    requires forall i | 0 <= i < |plans| :: Priced(plans[i].clips)
    ensures SoldTotal(plans) >= 0
  {
    if plans != [] {
      TotalNonNegative(plans[0].clips);
      RestNonNegative(plans[1..]);
    }
  }

  // ----- The whole flatten -----

  ghost function SizeOf(): Position -> int {
    (p: Position) => p.size
  }

  /** Everything the engine holds. */
  ghost function HeldTotal(e: Engine): int {
    MapSum(e.positions, SizeOf())
  }

  /** Plans for distinct held assets sell at most what is held in all. */
  lemma {:induction false} SoldAtMostHeld(plans: seq<AssetPlan>, positions: map<string, Position>)
    requires forall i | 0 <= i < |plans| :: plans[i].position.assetId in positions
    requires forall i | 0 <= i < |plans| :: ClipTotal(plans[i].clips) <= positions[plans[i].position.assetId].size
    requires forall i, j | 0 <= i < j < |plans| :: plans[i].position.assetId != plans[j].position.assetId
    requires forall a | a in positions :: positions[a].size >= 0
    ensures SoldTotal(plans) <= MapSum(positions, SizeOf())
    decreases |plans|
  {
    hide MapSum;
    if plans == [] {
      MapSumNonNegative(positions, SizeOf());
    } else {
      var a := plans[0].position.assetId;
      MapSumRemove(positions, a, SizeOf());
      assert forall i | 0 <= i < |plans[1..]| :: plans[1..][i] == plans[i + 1];
      SoldAtMostHeld(plans[1..], positions - {a});
    }
  }

  /**
   * Short of overflow a flatten succeeds exactly when every held asset has a sellable book; what it sells and at which
   * prices is stated elsewhere.
   */
  lemma FlattenDecided(e: Engine, books: map<string, BookState>, now: nat, limits: Limits, idFor: string -> string, k: nat)
    requires Inv(e, k) && FreshIds(e, idFor) && AllRepresentable(e, books, limits) && Roomy(e, HeldTotal(e))
    ensures Flatten(e, books, now, limits, idFor).Ok? <==> forall a | a in e.positions :: HasSellable(e, a, books, now, limits)
  {
    hide Inv, HasSellable, Roomy, NoneOpen, Representable, SortedKeys, PlanAssets, ExecutePlans, HeldTotal;
    InvFacts(e, k);
    var assets := SortedKeys(e.positions.Keys);
    PlansExist(e, assets, books, now, limits, []);
    var planned := PlanAssets(e, assets, books, now, limits, []);
    if planned.Ok? {
      SortedKeysDistinct(e.positions.Keys);
      PlanAssetsSound(e, assets, books, now, limits, []);
      PlannedExecutes(e, planned.value, books, now, limits, idFor, k);
    }
  }

  lemma PlannedExecutes(e: Engine, plans: seq<AssetPlan>, books: map<string, BookState>, now: nat, limits: Limits, idFor: string -> string, k: nat)
    requires Inv(e, k) && FreshIds(e, idFor) && AllRepresentable(e, books, limits) && Roomy(e, HeldTotal(e))
    requires PlansSound(e, plans, books, limits)
    ensures ExecutePlans(CancelWhere(e, OpenOrders()).0, plans, idFor, now, []).Ok?
  {
    hide Inv, NoneOpen, SortedKeys, ExecutePlans, CancelIds, Selected;
    InvFacts(e, k);
    PlansExecutable(e, plans, books, limits, idFor, k);
    var cleared := CancelWhere(e, OpenOrders()).0;
    CancelWhereMeaning(e, OpenOrders());
    forall i | 0 <= i < |plans| ensures Priced(plans[i].clips) {
      PlanPriced(plans[i], books[plans[i].position.assetId], limits, e.participationBps);
    }
    forall a | a in e.positions ensures e.positions[a].size >= 0 {
      assert PositionOk(a, e.positions[a]);
    }
    SoldAtMostHeld(plans, e.positions);
    assert Roomy(cleared, HeldTotal(e));
    ExecuteSucceeds(cleared, plans, idFor, now, [], HeldTotal(e), k);
  }

  lemma PlanPriced(plan: AssetPlan, book: BookState, limits: Limits, bps: nat)
    requires PlanSound(plan, book, limits, bps) && Representable(book, limits, bps)
    ensures Priced(plan.clips)
  {
    hide MinimumPrice, ClipTotal, DistinctPrices;
    forall c | c in plan.clips ensures c.quantity > 0 && 0 < c.price < SCALE {
      assert ClipFits(c, book.bids, MinimumPrice(book, limits).value, bps);
    }
  }
}
