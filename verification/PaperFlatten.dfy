/** Selling out: fill-or-kill clips against each held asset's bids, planned first and executed all or nothing. */
module PaperFlatten {
  import opened Prelude
  import opened Ordered
  import opened FixedPoint
  import opened Book
  import opened MarketEvents
  import opened PaperCore

  datatype Limits = Limits(maxBookAge: nat, maxEventLag: nat, maxSlippageTicks: nat)

  datatype Clip = Clip(price: int, quantity: int)

  datatype AssetPlan = AssetPlan(position: Position, hash: string, clips: seq<Clip>)

  predicate FreshTradeable(book: BookState, now: nat, limits: Limits) {
    book.tradeable && book.receivedAt != 0 && book.exchangeTimestamp <= book.receivedAt
    && SaturatingSub(book.receivedAt, book.exchangeTimestamp) <= limits.maxEventLag
    && book.receivedAt <= now && SaturatingSub(now, book.receivedAt) <= limits.maxBookAge
  }

  /** The lowest price the slippage band allows. */
  function MinimumPrice(book: BookState, limits: Limits): Result<int> {
    if book.bestBid.None? then Err("paper_flatten_missing_bid")
    else
      var slippage :- Checked(book.tickSize * limits.maxSlippageTicks, "paper_flatten_slippage_overflow");
      var floor :- Sub(book.bestBid.value, slippage);
      Ok(if floor > 0 then floor else 0)
  }

  /** Clips from the best bid downwards until the position or the band is used up. */
  function ClipLevels(levels: seq<Level>, remaining: int, minimum: int, bps: nat): Result<seq<Clip>> {
    if levels == [] || remaining == 0 || levels[0].price < minimum then Ok([])
    else
      var available :- ParticipationAmount(levels[0].size, bps);
      var quantity := Min(remaining, available);
      if quantity > 0 then
        var rest :- ClipLevels(levels[1..], remaining - quantity, minimum, bps);
        Ok([Clip(levels[0].price, quantity)] + rest)
      else ClipLevels(levels[1..], remaining, minimum, bps)
  }

  function ClipTotal(clips: seq<Clip>): int {
    if clips == [] then 0 else clips[0].quantity + ClipTotal(clips[1..])
  }

  function PlanAsset(position: Position, book: BookState, now: nat, limits: Limits, bps: nat): Result<AssetPlan> {
    if !HasText(book.hash) then Err("paper_flatten_book_unverified")
    else if !FreshTradeable(book, now, limits) then Err("paper_flatten_book_not_fresh_tradeable")
    else
      var minimum :- MinimumPrice(book, limits);
      var clips :- ClipLevels(Sorted(book.bids, true), position.size, minimum, bps);
      Ok(AssetPlan(position, book.hash.value, if ClipTotal(clips) < book.minOrderSize then [] else clips))
  }

  /** Plans for the held assets, in key order; the first asset that cannot be planned fails the whole call. */
  function PlanAssets(e: Engine, assets: seq<string>, books: map<string, BookState>, now: nat, limits: Limits, plans: seq<AssetPlan>)
    : Result<seq<AssetPlan>>
    requires forall a | a in assets :: a in e.positions
    decreases |assets|
  {
    if assets == [] then Ok(plans)
    else
      var position := e.positions[assets[0]];
      if position.size <= 0 then PlanAssets(e, assets[1..], books, now, limits, plans)
      else if position.assetId !in books then Err("paper_flatten_missing_book")
      else
        var plan :- PlanAsset(position, books[position.assetId], now, limits, e.participationBps);
        PlanAssets(e, assets[1..], books, now, limits, plans + [plan])
  }

  function LowestPrice(clips: seq<Clip>): int
    requires clips != []
  {
    if |clips| == 1 then clips[0].price else Min(clips[0].price, LowestPrice(clips[1..]))
  }

  function ClipPlans(clips: seq<Clip>, id: string): seq<Plan> {
    if clips == [] then [] else [Plan(id, clips[0].quantity, clips[0].price)] + ClipPlans(clips[1..], id)
  }

  function SellOrder(plan: AssetPlan, id: string, now: nat): Order
    requires plan.clips != []
  {
    RestingOrder(Intent(plan.position.assetId, Sell, LowestPrice(plan.clips), ClipTotal(plan.clips), now + 1), id, now, Some(plan.hash))
  }

  function WithSellOrder(e: Engine, plan: AssetPlan, id: string, now: nat): Engine
    requires plan.clips != []
  {
    e.(orders := e.orders[id := SellOrder(plan, id, now)])
  }

  /** Executes the plans one asset after the other, each as one new order filled clip by clip. */
  function ExecutePlans(e: Engine, plans: seq<AssetPlan>, idFor: string -> string, now: nat, fills: seq<Fill>)
    : Result<(Engine, seq<Fill>)>
    decreases |plans|
  {
    if plans == [] then Ok((e, fills))
    else if plans[0].clips == [] then ExecutePlans(e, plans[1..], idFor, now, fills)
    else
      var id := idFor(plans[0].position.assetId);
      var (next, all) :- ApplyPlans(WithSellOrder(e, plans[0], id, now), ClipPlans(plans[0].clips, id), now, fills);
      ExecutePlans(next, plans[1..], idFor, now, all)
  }

  /** `idFor` names the new order of each asset; the source draws a fresh random id. */
  function Flatten(e: Engine, books: map<string, BookState>, now: nat, limits: Limits, idFor: string -> string)
    : Result<(Engine, seq<Fill>)>
  {
    var plans :- PlanAssets(e, SortedKeys(e.positions.Keys), books, now, limits, []);
    ExecutePlans(CancelWhere(e, OpenOrders()).0, plans, idFor, now, [])
  }
}
