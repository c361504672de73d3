/** What a successful flatten sells, and what it leaves behind. */
module PaperFlattenProofs {
  import opened Prelude
  import opened Ordered
  import opened Sums
  import opened FixedPoint
  import opened Book
  import opened MarketEvents
  import opened PaperMath
  import opened PaperCore
  import opened PaperInvariant
  import opened PaperPlans
  import opened PaperOrders
  import opened PaperMatching
  import opened PaperFlatten

  // ----- Positions move by exactly the fills -----

  function FillSum(fills: seq<Fill>, weight: Fill -> int): int {
    if fills == [] then 0 else weight(fills[0]) + FillSum(fills[1..], weight)
  }

  lemma {:induction false} FillSumConcat(a: seq<Fill>, b: seq<Fill>, weight: Fill -> int)
    ensures FillSum(a + b, weight) == FillSum(a, weight) + FillSum(b, weight)
  {
    if a == [] {
      assert a + b == b;
    } else {
      assert (a + b)[1..] == a[1..] + b;
      FillSumConcat(a[1..], b, weight);
    }
  }

  /** Bought minus sold on one asset. */
  function NetOf(assetId: string): Fill -> int {
    (f: Fill) => if f.assetId != assetId then 0 else if f.side.Buy? then f.size else -f.size
  }

  lemma FillHolds(e: Engine, id: string, quantity: int, price: int, now: nat, assetId: string)
    requires Shape(e) && ApplyFillAtPrice(e, id, quantity, price, now).Ok?
    ensures var (d, f) := ApplyFillAtPrice(e, id, quantity, price, now).value;
      Held(d, assetId) == Held(e, assetId) + NetOf(assetId)(f)
  {
    var moved, filled := FillParts(e, id, quantity, price, now);
    var asset := e.orders[id].intent.assetId;
    if e.orders[id].intent.side.Buy? {
      BuyMoves(e, asset, quantity, price);
    } else {
      SellMoves(e, asset, quantity, price);
    }
  }

  /** Conservation: any execution moves each position by exactly what its fills bought and sold. */
  lemma {:induction false} PlansHold(e: Engine, plans: seq<Plan>, now: nat, assetId: string)
    requires Shape(e) && Ready(e.orders, plans) && ApplyPlans(e, plans, now, []).Ok?
    ensures var (d, fills) := ApplyPlans(e, plans, now, []).value;
      Held(d, assetId) == Held(e, assetId) + FillSum(fills, NetOf(assetId))
    decreases |plans|
  {
    if plans != [] {
      var next, f := PlansHead(e, plans, now);
      FillHolds(e, plans[0].id, plans[0].quantity, plans[0].price, now, assetId);
      PlansHold(next, plans[1..], now, assetId);
      var fills := ApplyPlans(e, plans, now, []).value.1;
      assert fills[0] == f && fills[1..] == ApplyPlans(next, plans[1..], now, []).value.1;
    }
  }

  // ----- Clips -----

  /** Each clip takes at most the participating share of a bid level in the band; together at most the position. */
  ghost predicate ClipFits(c: Clip, levels: seq<Level>, minimum: int, bps: nat) {
    c.quantity > 0 && c.price >= minimum
    && exists l | l in levels :: l.price == c.price && l.size >= 0 && c.quantity <= l.size * bps / 10_000
  }

  ghost predicate ClipsFit(clips: seq<Clip>, levels: seq<Level>, minimum: int, bps: nat) {
    forall c | c in clips :: ClipFits(c, levels, minimum, bps)
  }

  lemma PositiveParticipation(size: int, bps: nat)
    requires ParticipationAmount(size, bps).Ok? && ParticipationAmount(size, bps).value > 0
    ensures size > 0 && ParticipationAmount(size, bps).value == size * bps / 10_000
  {
    if size <= 0 {
      MulNonNegative(-size, bps * 100);
      assert false;
    }
    ParticipationIsFloor(size, bps);
  }

  lemma {:induction false} ClipLevelsFit(levels: seq<Level>, remaining: int, minimum: int, bps: nat)
    requires remaining >= 0 && ClipLevels(levels, remaining, minimum, bps).Ok?
    ensures var clips := ClipLevels(levels, remaining, minimum, bps).value;
      ClipsFit(clips, levels, minimum, bps) && 0 <= ClipTotal(clips) <= remaining
  {
    if !(levels == [] || remaining == 0 || levels[0].price < minimum) {
      var available := ParticipationAmount(levels[0].size, bps).value;
      var quantity := Min(remaining, available);
      assert levels == [levels[0]] + levels[1..];
      if quantity > 0 {
        PositiveParticipation(levels[0].size, bps);
        ClipLevelsFit(levels[1..], remaining - quantity, minimum, bps);
        var rest := ClipLevels(levels[1..], remaining - quantity, minimum, bps).value;
        var clips := ClipLevels(levels, remaining, minimum, bps).value;
        assert clips == [Clip(levels[0].price, quantity)] + rest;
        assert levels[0] in levels;
        forall c | c in clips ensures ClipFits(c, levels, minimum, bps) {
          if c in rest {
            assert ClipFits(c, levels[1..], minimum, bps);
          }
        }
      } else {
        ClipLevelsFit(levels[1..], remaining, minimum, bps);
        var clips := ClipLevels(levels, remaining, minimum, bps).value;
        forall c | c in clips ensures ClipFits(c, levels, minimum, bps) {
          assert ClipFits(c, levels[1..], minimum, bps);
        }
      }
    }
  }

  ghost predicate DistinctClips(clips: seq<Clip>) {
    forall i, j | 0 <= i < j < |clips| :: clips[i].price != clips[j].price
  }

  /** With distinct bid prices no level is clipped twice. */
  lemma {:induction false} ClipsDistinct(levels: seq<Level>, remaining: int, minimum: int, bps: nat)
    requires StrictlySorted(levels, true) && remaining >= 0 && ClipLevels(levels, remaining, minimum, bps).Ok?
    ensures DistinctClips(ClipLevels(levels, remaining, minimum, bps).value)
  {
    if !(levels == [] || remaining == 0 || levels[0].price < minimum) {
      var quantity := Min(remaining, ParticipationAmount(levels[0].size, bps).value);
      var left := if quantity > 0 then remaining - quantity else remaining;
      ClipsDistinct(levels[1..], left, minimum, bps);
      ClipLevelsFit(levels[1..], left, minimum, bps);
      var rest := ClipLevels(levels[1..], left, minimum, bps).value;
      forall c | c in rest ensures c.price < levels[0].price {
        assert ClipFits(c, levels[1..], minimum, bps);
        var l :| l in levels[1..] && l.price == c.price;
      }
    }
  }

  /** What one asset's plan may contain. */
  ghost predicate PlanSound(plan: AssetPlan, book: BookState, limits: Limits, bps: nat) {
    && MinimumPrice(book, limits).Ok?
    && ClipsFit(plan.clips, book.bids, MinimumPrice(book, limits).value, bps)
    && (DistinctPrices(book.bids) ==> DistinctClips(plan.clips))
    && 0 <= ClipTotal(plan.clips) <= plan.position.size
    && (plan.clips == [] || ClipTotal(plan.clips) >= book.minOrderSize)
  }

  lemma {:induction false} SortedSameLevels(levels: seq<Level>, desc: bool)
    ensures forall l :: l in Sorted(levels, desc) <==> l in levels
  {
    if levels != [] {
      SortedSameLevels(levels[1..], desc);
      InsertSameLevels(levels[0], Sorted(levels[1..], desc), desc);
      assert levels == [levels[0]] + levels[1..];
    }
  }

  lemma {:induction false} InsertSameLevels(level: Level, levels: seq<Level>, desc: bool)
    ensures forall l :: l in Insert(level, levels, desc) <==> l == level || l in levels
  {
    if levels != [] && Before(desc, levels[0].price, level.price) {
      InsertSameLevels(level, levels[1..], desc);
      assert levels == [levels[0]] + levels[1..];
    }
  }

  lemma PlanAssetSound(position: Position, book: BookState, now: nat, limits: Limits, bps: nat)
    requires position.size > 0 && PlanAsset(position, book, now, limits, bps).Ok?
    ensures var plan := PlanAsset(position, book, now, limits, bps).value;
      plan.position == position && PlanSound(plan, book, limits, bps)
  {
    var minimum := MinimumPrice(book, limits).value;
    var sorted := Sorted(book.bids, true);
    ClipLevelsFit(sorted, position.size, minimum, bps);
    SortedSameLevels(book.bids, true);
    var clips := ClipLevels(sorted, position.size, minimum, bps).value;
    forall c | c in clips ensures ClipFits(c, book.bids, minimum, bps) {
      assert ClipFits(c, sorted, minimum, bps);
    }
    if DistinctPrices(book.bids) {
      SortedFacts(book.bids, true);
      ClipsDistinct(sorted, position.size, minimum, bps);
    }
  }

  /** The plans cover distinct held assets, each soundly. */
  ghost predicate PlansSound(e: Engine, plans: seq<AssetPlan>, books: map<string, BookState>, limits: Limits) {
    && (forall i | 0 <= i < |plans| ::
        && plans[i].position.assetId in e.positions && e.positions[plans[i].position.assetId] == plans[i].position
        && plans[i].position.assetId in books
        && PlanSound(plans[i], books[plans[i].position.assetId], limits, e.participationBps))
    && (forall i, j | 0 <= i < j < |plans| :: plans[i].position.assetId != plans[j].position.assetId)
  }

  lemma {:induction false} PlanAssetsSound(e: Engine, assets: seq<string>, books: map<string, BookState>, now: nat, limits: Limits, plans: seq<AssetPlan>)
    requires Shape(e) && Distinct(assets) && forall a | a in assets :: a in e.positions
    requires PlansSound(e, plans, books, limits)
    requires forall i | 0 <= i < |plans| :: plans[i].position.assetId !in assets
    requires PlanAssets(e, assets, books, now, limits, plans).Ok?
    ensures PlansSound(e, PlanAssets(e, assets, books, now, limits, plans).value, books, limits)
    decreases |assets|
  {
    if assets != [] {
      var first, rest := assets[0], assets[1..];
      var position := e.positions[first];
      DistinctTail(assets, []);
      if position.size > 0 {
        PlanAssetSound(position, books[first], now, limits, e.participationBps);
        var plan := PlanAsset(position, books[first], now, limits, e.participationBps).value;
        PlanAssetsSound(e, rest, books, now, limits, plans + [plan]);
      } else {
        PlanAssetsSound(e, rest, books, now, limits, plans);
      }
    }
  }

  // ----- Executing one asset -----

  ghost predicate NoneOpen(e: Engine) {
    forall id | id in e.orders :: !IsOpen(e.orders[id].status)
  }

  lemma NoneOpenSums(e: Engine)
    requires NoneOpen(e)
    ensures TotalReserved(e) == 0 && forall a :: OpenSells(e, a) == 0
  {
    ZeroSum(e.orders, OpenBuyReserve(e.feeBps));
    forall a ensures OpenSells(e, a) == 0 {
      ZeroSum(e.orders, OpenSellSize(a));
    }
  }

  lemma {:induction false} ZeroSum<V>(m: map<string, V>, f: V -> int)
    requires forall k | k in m :: f(m[k]) == 0
    ensures MapSum(m, f) == 0
    decreases m.Keys
  {
    if m != map[] {
      ZeroSum(m - {Minimum(m.Keys)}, f);
    }
  }

  lemma {:induction false} ClipPlansFacts(clips: seq<Clip>, id: string)
    ensures var plans := ClipPlans(clips, id);
      && |plans| == |clips|
      && (forall i | 0 <= i < |clips| :: plans[i] == Plan(id, clips[i].quantity, clips[i].price))
      && PlannedFor(plans, id) == ClipTotal(clips)
      && (forall other | other != id :: PlannedFor(plans, other) == 0)
  {
    if clips != [] {
      ClipPlansFacts(clips[1..], id);
      var plans := ClipPlans(clips, id);
      assert plans[1..] == ClipPlans(clips[1..], id);
    }
  }

  lemma {:induction false} PricesInRange(e: Engine, plans: seq<Plan>, now: nat, fills: seq<Fill>)
    requires ApplyPlans(e, plans, now, fills).Ok?
    ensures forall p | p in plans :: 0 < p.price < SCALE
    decreases |plans|
  {
    if plans != [] {
      var moved, filled := FillParts(e, plans[0].id, plans[0].quantity, plans[0].price, now);
      var (next, f) := ApplyFillAtPrice(e, plans[0].id, plans[0].quantity, plans[0].price, now).value;
      PricesInRange(next, plans[1..], now, fills + [f]);
      assert plans == [plans[0]] + plans[1..];
    }
  }

  lemma {:induction false} LowestPriceFacts(clips: seq<Clip>)
    requires clips != []
    ensures exists c | c in clips :: c.price == LowestPrice(clips)
  {
    if |clips| > 1 {
      LowestPriceFacts(clips[1..]);
      assert clips == [clips[0]] + clips[1..];
    }
    assert clips[0] in clips;
  }

  lemma {:induction false} PositiveTotal(clips: seq<Clip>)
    requires clips != [] && forall c | c in clips :: c.quantity > 0
    ensures ClipTotal(clips) > 0
  {
    assert clips[0] in clips;
    if |clips| > 1 {
      PositiveTotal(clips[1..]);
    } else {
      assert clips[1..] == [];
    }
  }

  /** A clip sale is ready to execute: one open sell order covered by the position. */
  lemma OpenedReady(e: Engine, plan: AssetPlan, id: string, now: nat, k: nat)
    requires Inv(e, k) && NoneOpen(e) && id !in e.orders
    requires plan.clips != [] && (forall c | c in plan.clips :: c.quantity > 0 && 0 < c.price < SCALE)
    requires ClipTotal(plan.clips) <= Held(e, plan.position.assetId)
    ensures var resting := WithSellOrder(e, plan, id, now);
      Inv(resting, k) && Ready(resting.orders, ClipPlans(plan.clips, id))
  {
    var o := SellOrder(plan, id, now);
    var resting := WithSellOrder(e, plan, id, now);
    LowestPriceFacts(plan.clips);
    PositiveTotal(plan.clips);
    NoneOpenSums(e);
    MapSumUpdate(e.orders, id, o, OpenBuyReserve(e.feeBps));
    forall a ensures OpenSells(resting, a) <= Held(resting, a) {
      MapSumUpdate(e.orders, id, o, OpenSellSize(a));
      assert OpenSells(e, a) == 0 <= Held(e, a);
    }
    ClipPlansFacts(plan.clips, id);
    forall p | p in ClipPlans(plan.clips, id) ensures p.id == id && p.quantity > 0 {
      var i :| 0 <= i < |plan.clips| && ClipPlans(plan.clips, id)[i] == p;
      assert plan.clips[i] in plan.clips;
    }
  }

  /** The fills of one asset are its clips, in order. */
  ghost predicate FillsAreClips(fills: seq<Fill>, plan: AssetPlan) {
    && |fills| == |plan.clips|
    && forall i | 0 <= i < |fills| ::
        && fills[i].assetId == plan.position.assetId && fills[i].side.Sell?
        && fills[i].size == plan.clips[i].quantity && fills[i].price == plan.clips[i].price
  }

  ghost predicate SaleReady(e: Engine, plan: AssetPlan, id: string, now: nat, k: nat) {
    && Inv(e, k) && NoneOpen(e) && id !in e.orders
    && plan.clips != [] && (forall c | c in plan.clips :: c.quantity > 0)
    && ClipTotal(plan.clips) <= Held(e, plan.position.assetId)
    && ApplyPlans(WithSellOrder(e, plan, id, now), ClipPlans(plan.clips, id), now, []).Ok?
  }

  lemma SaleStarts(e: Engine, plan: AssetPlan, id: string, now: nat, k: nat)
    requires SaleReady(e, plan, id, now, k)
    ensures Inv(WithSellOrder(e, plan, id, now), k)
    ensures Ready(WithSellOrder(e, plan, id, now).orders, ClipPlans(plan.clips, id))
  {
    var plans := ClipPlans(plan.clips, id);
    PricesInRange(WithSellOrder(e, plan, id, now), plans, now, []);
    ClipPlansFacts(plan.clips, id);
    forall c | c in plan.clips ensures 0 < c.price < SCALE {
      var i :| 0 <= i < |plan.clips| && plan.clips[i] == c;
      assert plans[i] in plans;
    }
    OpenedReady(e, plan, id, now, k);
  }

  lemma SaleFills(e: Engine, plan: AssetPlan, id: string, now: nat, k: nat)
    requires SaleReady(e, plan, id, now, k)
    ensures FillsAreClips(ApplyPlans(WithSellOrder(e, plan, id, now), ClipPlans(plan.clips, id), now, []).value.1, plan)
  {
    SaleStarts(e, plan, id, now, k);
    ClipPlansFacts(plan.clips, id);
    PlansExecute(WithSellOrder(e, plan, id, now), ClipPlans(plan.clips, id), now);
  }

  lemma SaleCloses(e: Engine, plan: AssetPlan, id: string, now: nat, k: nat)
    requires SaleReady(e, plan, id, now, k)
    ensures var d := ApplyPlans(WithSellOrder(e, plan, id, now), ClipPlans(plan.clips, id), now, []).value.0;
      NoneOpen(d) && d.orders.Keys == e.orders.Keys + {id}
  {
    SaleStarts(e, plan, id, now, k);
    var resting := WithSellOrder(e, plan, id, now);
    var plans := ClipPlans(plan.clips, id);
    ClipPlansFacts(plan.clips, id);
    PlansProgress(resting, plans, now);
    PositiveTotal(plan.clips);
    var d := ApplyPlans(resting, plans, now, []).value.0;
    forall other | other in d.orders ensures !IsOpen(d.orders[other].status) {
      assert Progressed(resting.orders[other], d.orders[other], PlannedFor(plans, other));
    }
  }

  lemma SaleKeepsInv(e: Engine, plan: AssetPlan, id: string, now: nat, k: nat)
    requires SaleReady(e, plan, id, now, k)
    ensures var (d, fills) := ApplyPlans(WithSellOrder(e, plan, id, now), ClipPlans(plan.clips, id), now, []).value;
      && Inv(d, k) && d.participationBps == e.participationBps && d.startingCash == e.startingCash && d.feeBps == e.feeBps
      && (forall a :: Held(d, a) == Held(e, a) + FillSum(fills, NetOf(a)))
  {
    SaleStarts(e, plan, id, now, k);
    SaleFills(e, plan, id, now, k);
    var resting := WithSellOrder(e, plan, id, now);
    var plans := ClipPlans(plan.clips, id);
    PlansKeepInv(resting, plans, now, k);
    NoPartialBuys(ApplyPlans(resting, plans, now, []).value.1);
    forall a ensures Held(ApplyPlans(resting, plans, now, []).value.0, a)
        == Held(e, a) + FillSum(ApplyPlans(resting, plans, now, []).value.1, NetOf(a))
    {
      PlansHold(resting, plans, now, a);
    }
  }

  lemma {:induction false} NoPartialBuys(fills: seq<Fill>)
    requires forall f | f in fills :: f.side.Sell?
    ensures PartialBuys(fills) == 0
  {
    if fills != [] {
      assert fills[0] in fills;
      NoPartialBuys(fills[1..]);
    }
  }

  // ----- Executing all assets -----

  datatype Sale = Sale(assetId: string, price: int, quantity: int)

  function ClipSales(clips: seq<Clip>, assetId: string): seq<Sale> {
    if clips == [] then [] else [Sale(assetId, clips[0].price, clips[0].quantity)] + ClipSales(clips[1..], assetId)
  }

  /** Everything the plans sell, in order. */
  function Sales(plans: seq<AssetPlan>): seq<Sale> {
    if plans == [] then [] else ClipSales(plans[0].clips, plans[0].position.assetId) + Sales(plans[1..])
  }

  ghost predicate FillsAreSales(fills: seq<Fill>, sales: seq<Sale>) {
    && |fills| == |sales|
    && forall i | 0 <= i < |fills| :: fills[i].side.Sell? && fills[i].assetId == sales[i].assetId
        && fills[i].price == sales[i].price && fills[i].size == sales[i].quantity
  }

  lemma {:induction false} ClipSalesFacts(clips: seq<Clip>, assetId: string)
    ensures var sales := ClipSales(clips, assetId);
      |sales| == |clips| && forall i | 0 <= i < |clips| :: sales[i] == Sale(assetId, clips[i].price, clips[i].quantity)
  {
    if clips != [] {
      ClipSalesFacts(clips[1..], assetId);
    }
  }

  ghost predicate Executable(e: Engine, plans: seq<AssetPlan>, idFor: string -> string) {
    && (forall i | 0 <= i < |plans| ::
        && ClipTotal(plans[i].clips) <= Held(e, plans[i].position.assetId)
        && (forall c | c in plans[i].clips :: c.quantity > 0)
        && idFor(plans[i].position.assetId) !in e.orders)
    && (forall i, j | 0 <= i < j < |plans| ::
        && plans[i].position.assetId != plans[j].position.assetId
        && idFor(plans[i].position.assetId) != idFor(plans[j].position.assetId))
  }

  lemma {:induction false} SalesNet(fills: seq<Fill>, assetId: string, other: string)
    requires forall f | f in fills :: f.assetId == assetId
    requires other != assetId
    ensures FillSum(fills, NetOf(other)) == 0
  {
    if fills != [] {
      assert fills[0] in fills;
      SalesNet(fills[1..], assetId, other);
    }
  }

  /** One asset sold: what is left of the plans can still be executed. */
  lemma ExecutableAfter(e: Engine, plans: seq<AssetPlan>, idFor: string -> string, now: nat, k: nat)
    requires plans != [] && plans[0].clips != [] && Executable(e, plans, idFor)
    requires SaleReady(e, plans[0], idFor(plans[0].position.assetId), now, k)
    ensures var id := idFor(plans[0].position.assetId);
      Executable(ApplyPlans(WithSellOrder(e, plans[0], id, now), ClipPlans(plans[0].clips, id), now, []).value.0, plans[1..], idFor)
  {
    hide Inv, ApplyPlans, SellOrder;
    var asset := plans[0].position.assetId;
    var id := idFor(asset);
    SaleFills(e, plans[0], id, now, k);
    SaleCloses(e, plans[0], id, now, k);
    SaleKeepsInv(e, plans[0], id, now, k);
    var (d, fills) := ApplyPlans(WithSellOrder(e, plans[0], id, now), ClipPlans(plans[0].clips, id), now, []).value;
    forall i | 0 <= i < |plans[1..]| ensures Held(d, plans[1..][i].position.assetId) == Held(e, plans[1..][i].position.assetId) {
      assert plans[1..][i] == plans[i + 1];
      SalesNet(fills, asset, plans[i + 1].position.assetId);
    }
  }

  /** What an execution of plans adds to the fills so far, and how it leaves the engine. */
  ghost predicate Executed(e: Engine, plans: seq<AssetPlan>, fills: seq<Fill>, d: Engine, all: seq<Fill>, k: nat) {
    && Inv(d, k) && NoneOpen(d)
    && |fills| <= |all| && all[..|fills|] == fills
    && FillsAreSales(all[|fills|..], Sales(plans))
    && (forall a :: Held(d, a) == Held(e, a) + FillSum(all[|fills|..], NetOf(a)))
    && d.participationBps == e.participationBps && d.startingCash == e.startingCash && d.feeBps == e.feeBps
  }

  lemma TailJoins(all: seq<Fill>, fills: seq<Fill>, sold: seq<Fill>)
    requires |fills + sold| <= |all| && all[..|fills + sold|] == fills + sold
    ensures all[|fills|..] == sold + all[|fills + sold|..] && all[..|fills|] == fills
  {
    assert all == (fills + sold) + all[|fills + sold|..];
    assert all[..|fills|] == all[..|fills + sold|][..|fills|];
  }

  lemma SalesJoin(plans: seq<AssetPlan>, sold: seq<Fill>, more: seq<Fill>)
    requires plans != [] && FillsAreClips(sold, plans[0]) && FillsAreSales(more, Sales(plans[1..]))
    ensures FillsAreSales(sold + more, Sales(plans))
  {
    ClipSalesFacts(plans[0].clips, plans[0].position.assetId);
  }

  lemma ExecutedJoins(e: Engine, plans: seq<AssetPlan>, fills: seq<Fill>, next: Engine, sold: seq<Fill>, d: Engine, all: seq<Fill>, k: nat)
    requires plans != [] && FillsAreClips(sold, plans[0])
    requires forall a :: Held(next, a) == Held(e, a) + FillSum(sold, NetOf(a))
    requires next.participationBps == e.participationBps && next.startingCash == e.startingCash && next.feeBps == e.feeBps
    requires Executed(next, plans[1..], fills + sold, d, all, k)
    ensures Executed(e, plans, fills, d, all, k)
  {
    hide Inv, NoneOpen, FillsAreClips, FillsAreSales, Sales, FillSum;
    var tail := all[|fills + sold|..];
    TailJoins(all, fills, sold);
    SalesJoin(plans, sold, tail);
    forall a ensures Held(d, a) == Held(e, a) + FillSum(all[|fills|..], NetOf(a)) {
      FillSumConcat(sold, tail, NetOf(a));
    }
  }

  lemma {:induction false} ExecuteAll(e: Engine, plans: seq<AssetPlan>, idFor: string -> string, now: nat, fills: seq<Fill>, k: nat)
    requires Inv(e, k) && NoneOpen(e) && Executable(e, plans, idFor)
    requires ExecutePlans(e, plans, idFor, now, fills).Ok?
    ensures var (d, all) := ExecutePlans(e, plans, idFor, now, fills).value;
      Executed(e, plans, fills, d, all, k)
    decreases |plans|
  {
    if plans == [] {
      assert fills[|fills|..] == [];
    } else if plans[0].clips == [] {
      ExecuteAll(e, plans[1..], idFor, now, fills, k);
      assert Sales(plans) == Sales(plans[1..]);
    } else {
      var id := idFor(plans[0].position.assetId);
      FillsAccumulate(WithSellOrder(e, plans[0], id, now), ClipPlans(plans[0].clips, id), now, fills);
      ExecutableAfter(e, plans, idFor, now, k);
      SaleFills(e, plans[0], id, now, k);
      SaleCloses(e, plans[0], id, now, k);
      SaleKeepsInv(e, plans[0], id, now, k);
      var (next, sold) := ApplyPlans(WithSellOrder(e, plans[0], id, now), ClipPlans(plans[0].clips, id), now, []).value;
      ExecuteAll(next, plans[1..], idFor, now, fills + sold, k);
      var (d, all) := ExecutePlans(e, plans, idFor, now, fills).value;
      ExecutedJoins(e, plans, fills, next, sold, d, all, k);
    }
  }

  // ----- What a flatten sells -----

  function SizeOn(assetId: string): Fill -> int {
    (f: Fill) => if f.assetId == assetId then f.size else 0
  }

  function TotalFor(plans: seq<AssetPlan>, assetId: string): int {
    if plans == [] then 0
    else (if plans[0].position.assetId == assetId then ClipTotal(plans[0].clips) else 0) + TotalFor(plans[1..], assetId)
  }

  lemma {:induction false} ClipsSold(fills: seq<Fill>, clips: seq<Clip>, assetId: string, a: string)
    requires FillsAreSales(fills, ClipSales(clips, assetId))
    ensures FillSum(fills, SizeOn(a)) == if a == assetId then ClipTotal(clips) else 0
    decreases |clips|
  {
    ClipSalesFacts(clips, assetId);
    if clips != [] {
      ClipSalesFacts(clips[1..], assetId);
      ClipsSold(fills[1..], clips[1..], assetId, a);
    }
  }

  lemma {:induction false} SalesTotal(fills: seq<Fill>, plans: seq<AssetPlan>, a: string)
    requires FillsAreSales(fills, Sales(plans))
    ensures FillSum(fills, SizeOn(a)) == TotalFor(plans, a)
    decreases |plans|
  {
    if plans != [] {
      var n := |plans[0].clips|;
      ClipSalesFacts(plans[0].clips, plans[0].position.assetId);
      var head, tail := fills[..n], fills[n..];
      ClipsSold(head, plans[0].clips, plans[0].position.assetId, a);
      SalesTotal(tail, plans[1..], a);
      FillSumConcat(head, tail, SizeOn(a));
      assert fills == head + tail;
    }
  }

  lemma {:induction false} NetIsSold(fills: seq<Fill>, a: string)
    requires forall f | f in fills :: f.side.Sell?
    ensures FillSum(fills, NetOf(a)) == -FillSum(fills, SizeOn(a))
  {
    if fills != [] {
      assert fills[0] in fills;
      NetIsSold(fills[1..], a);
    }
  }

  lemma {:induction false} TotalOfOne(plans: seq<AssetPlan>, a: string)
    requires forall i, j | 0 <= i < j < |plans| :: plans[i].position.assetId != plans[j].position.assetId
    ensures TotalFor(plans, a) == 0
      || exists i | 0 <= i < |plans| :: plans[i].position.assetId == a && TotalFor(plans, a) == ClipTotal(plans[i].clips)
    ensures (forall i | 0 <= i < |plans| :: plans[i].position.assetId != a) ==> TotalFor(plans, a) == 0
  {
    if plans != [] {
      TotalOfOne(plans[1..], a);
      assert forall i | 0 <= i < |plans[1..]| :: plans[1..][i] == plans[i + 1];
      if plans[0].position.assetId == a {
        assert TotalFor(plans[1..], a) == 0;
        assert plans[0].position.assetId == a && TotalFor(plans, a) == ClipTotal(plans[0].clips);
      }
    }
  }

  /** The plan a sale comes from. */
  lemma {:induction false} SaleOrigin(plans: seq<AssetPlan>, n: nat) returns (i: nat, j: nat)
    requires n < |Sales(plans)|
    ensures i < |plans| && j < |plans[i].clips|
    ensures Sales(plans)[n] == Sale(plans[i].position.assetId, plans[i].clips[j].price, plans[i].clips[j].quantity)
    decreases |plans|
  {
    var first := ClipSales(plans[0].clips, plans[0].position.assetId);
    ClipSalesFacts(plans[0].clips, plans[0].position.assetId);
    if n < |first| {
      i, j := 0, n;
    } else {
      i, j := SaleOrigin(plans[1..], n - |first|);
      i := i + 1;
    }
  }

  /** A fill a flatten may make: a sale within the slippage band, within the participating share of a bid level. */
  ghost predicate FlattenFillAllowed(f: Fill, books: map<string, BookState>, limits: Limits, bps: nat) {
    && f.side.Sell? && f.assetId in books
    && MinimumPrice(books[f.assetId], limits).Ok?
    && ClipFits(Clip(f.price, f.size), books[f.assetId].bids, MinimumPrice(books[f.assetId], limits).value, bps)
  }

  lemma SalesAllowed(e: Engine, fills: seq<Fill>, plans: seq<AssetPlan>, books: map<string, BookState>, limits: Limits)
    requires PlansSound(e, plans, books, limits) && FillsAreSales(fills, Sales(plans))
    ensures forall f | f in fills :: FlattenFillAllowed(f, books, limits, e.participationBps)
  {
    forall f | f in fills ensures FlattenFillAllowed(f, books, limits, e.participationBps) {
      var n: nat :| n < |fills| && fills[n] == f;
      var i, j := SaleOrigin(plans, n);
      assert plans[i].clips[j] in plans[i].clips;
      assert Clip(f.price, f.size) == plans[i].clips[j];
    }
  }

  /** The ids of the orders a flatten opens are new and different per asset. */
  ghost predicate FreshIds(e: Engine, idFor: string -> string) {
    && (forall a | a in e.positions :: idFor(a) !in e.orders)
    && (forall a, b | a in e.positions && b in e.positions && a != b :: idFor(a) != idFor(b))
  }

  lemma PlansExecutable(e: Engine, plans: seq<AssetPlan>, books: map<string, BookState>, limits: Limits, idFor: string -> string, k: nat)
    requires Inv(e, k) && FreshIds(e, idFor) && PlansSound(e, plans, books, limits)
    ensures var cleared := CancelWhere(e, OpenOrders()).0;
      Inv(cleared, k) && NoneOpen(cleared) && Executable(cleared, plans, idFor) && cleared == e.(orders := cleared.orders)
  {
    CancelWhereMeaning(e, OpenOrders());
    CancelKeepsInv(e, CancelWhere(e, OpenOrders()).1, k);
    var cleared := CancelWhere(e, OpenOrders()).0;
    forall i | 0 <= i < |plans| ensures forall c | c in plans[i].clips :: c.quantity > 0 {
      forall c | c in plans[i].clips ensures c.quantity > 0 {
        assert PlanSound(plans[i], books[plans[i].position.assetId], limits, e.participationBps);
        assert ClipFits(c, books[plans[i].position.assetId].bids, MinimumPrice(books[plans[i].position.assetId], limits).value, e.participationBps);
      }
    }
  }

  lemma FlattenExecutes(e: Engine, books: map<string, BookState>, now: nat, limits: Limits, idFor: string -> string, k: nat)
    returns (plans: seq<AssetPlan>)
    requires Inv(e, k) && FreshIds(e, idFor) && Flatten(e, books, now, limits, idFor).Ok?
    ensures PlanAssets(e, SortedKeys(e.positions.Keys), books, now, limits, []) == Ok(plans) && PlansSound(e, plans, books, limits)
    ensures var (d, fills) := Flatten(e, books, now, limits, idFor).value;
      Executed(e, plans, [], d, fills, k) && FillsAreSales(fills, Sales(plans))
  {
    var assets := SortedKeys(e.positions.Keys);
    SortedKeysDistinct(e.positions.Keys);
    PlanAssetsSound(e, assets, books, now, limits, []);
    plans := PlanAssets(e, assets, books, now, limits, []).value;
    PlansExecutable(e, plans, books, limits, idFor, k);
    var cleared := CancelWhere(e, OpenOrders()).0;
    ExecuteAll(cleared, plans, idFor, now, [], k);
    var (d, fills) := Flatten(e, books, now, limits, idFor).value;
    assert fills[0..] == fills;
    assert forall a :: Held(cleared, a) == Held(e, a);
  }

  lemma {:induction false} SalesDistinct(plans: seq<AssetPlan>, a: string, m: nat, n: nat)
    requires forall i, j | 0 <= i < j < |plans| :: plans[i].position.assetId != plans[j].position.assetId
    requires forall i | 0 <= i < |plans| && plans[i].position.assetId == a :: DistinctClips(plans[i].clips)
    requires m < n < |Sales(plans)| && Sales(plans)[m].assetId == a && Sales(plans)[n].assetId == a
    ensures Sales(plans)[m].price != Sales(plans)[n].price
    decreases |plans|
  {
    var first := ClipSales(plans[0].clips, plans[0].position.assetId);
    ClipSalesFacts(plans[0].clips, plans[0].position.assetId);
    if m >= |first| {
      SalesDistinct(plans[1..], a, m - |first|, n - |first|);
    } else if n >= |first| {
      var i, j := SaleOrigin(plans[1..], n - |first|);
      assert false;
    }
  }

  /** Where a book lists each bid price once, a flatten sells into each level at most once. */
  lemma LevelSoldOnce(e: Engine, books: map<string, BookState>, now: nat, limits: Limits, idFor: string -> string, k: nat, m: nat, n: nat)
    requires Inv(e, k) && FreshIds(e, idFor) && Flatten(e, books, now, limits, idFor).Ok?
    requires m < n < |Flatten(e, books, now, limits, idFor).value.1|
    ensures var fills := Flatten(e, books, now, limits, idFor).value.1;
      fills[m].assetId == fills[n].assetId && fills[m].assetId in books && DistinctPrices(books[fills[m].assetId].bids)
      ==> fills[m].price != fills[n].price
  {
    var plans := FlattenExecutes(e, books, now, limits, idFor, k);
    var fills := Flatten(e, books, now, limits, idFor).value.1;
    var a := fills[m].assetId;
    if a == fills[n].assetId && a in books && DistinctPrices(books[a].bids) {
      forall i | 0 <= i < |plans| && plans[i].position.assetId == a ensures DistinctClips(plans[i].clips) {
        assert PlanSound(plans[i], books[a], limits, e.participationBps);
      }
      SalesDistinct(plans, a, m, n);
    }
  }

  /**
   * A successful flatten: no open order is left, every position falls by exactly what was sold of it,
   * each fill is a sale inside the band within a level's participating share, and per asset either
   * nothing or at least the minimum order size is sold.
   */
  lemma FlattenSound(e: Engine, books: map<string, BookState>, now: nat, limits: Limits, idFor: string -> string, k: nat)
    requires Inv(e, k) && FreshIds(e, idFor) && Flatten(e, books, now, limits, idFor).Ok?
    ensures var (d, fills) := Flatten(e, books, now, limits, idFor).value;
      && Inv(d, k) && NoneOpen(d)
      && d.participationBps == e.participationBps && d.startingCash == e.startingCash && d.feeBps == e.feeBps
      && (forall f | f in fills :: FlattenFillAllowed(f, books, limits, e.participationBps))
      && (forall a :: Held(d, a) == Held(e, a) - FillSum(fills, SizeOn(a)))
      && (forall a :: FillSum(fills, SizeOn(a)) == 0 || (a in books && FillSum(fills, SizeOn(a)) >= books[a].minOrderSize))
  {
    var plans := FlattenExecutes(e, books, now, limits, idFor, k);
    var (d, fills) := Flatten(e, books, now, limits, idFor).value;
    SalesAllowed(e, fills, plans, books, limits);
    assert fills[0..] == fills;
    forall a ensures Held(d, a) == Held(e, a) - FillSum(fills, SizeOn(a)) {
      NetIsSold(fills, a);
    }
    forall a ensures FillSum(fills, SizeOn(a)) == 0 || (a in books && FillSum(fills, SizeOn(a)) >= books[a].minOrderSize) {
      SalesTotal(fills, plans, a);
      TotalOfOne(plans, a);
      if TotalFor(plans, a) != 0 {
        var i :| 0 <= i < |plans| && plans[i].position.assetId == a && TotalFor(plans, a) == ClipTotal(plans[i].clips);
        assert PlanSound(plans[i], books[a], limits, e.participationBps);
      }
    }
  }
}
