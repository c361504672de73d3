/** Who a book update and a trade print fill, in terms of the levels the book lists and of the orders' own fields. */
module PaperMeaning {
  import opened Prelude
  import opened Ordered
  import opened FixedPoint
  import opened Decimal
  import opened Book
  import opened MarketEvents
  import BookProofs
  import MarketMeaning
  import opened PaperCore
  import opened PaperInvariant
  import opened PaperPlans
  import opened PaperOrders
  import opened PaperMatching
  import opened PaperTrades
  import opened PaperAllocation
  import opened PaperReprints

  /** The order rests: accepted, in full or in part still to be filled, and not expired. */
  ghost predicate Rests(o: Order, side: Side, asset: string, now: nat) {
    && (o.status == Submitted || o.status == Acknowledged || o.status == PartiallyFilled)
    && o.intent.side == side && o.intent.assetId == asset && now < o.intent.expiresAt
  }

  // ----- Book updates -----

  /** Some listed level on the other side is at the limit or better. */
  ghost predicate Offers(book: BookState, side: Side, limit: int) {
    match side
    case Buy => exists l :: l in book.asks && l.price <= limit
    case Sell => exists l :: l in book.bids && l.price >= limit
  }

  /** The order has been matched against this version of the book before. */
  ghost predicate Shown(o: Order, book: BookState) {
    exists h :: book.hash == Some(h) && o.lastBookVersion == Some(Digits(book.exchangeTimestamp) + ":" + h)
  }

  /** An order a book update can fill. */
  ghost predicate Willing(o: Order, book: BookState, now: nat, side: Side) {
    && Rests(o, side, book.assetId, now) && book.tradeable && MarketMeaning.HasHash(book.hash)
    && Offers(book, side, o.intent.limitPrice) && !Shown(o, book)
  }

  lemma CrossesMeaning(i: Intent, book: BookState)
    requires BookProofs.WellFormed(book)
    ensures Crosses(i, book) <==> Offers(book, i.side, i.limitPrice)
  {
    if book.asks != [] {
      assert book.asks[0] in book.asks;
    }
    if book.bids != [] {
      assert book.bids[0] in book.bids;
    }
  }

  lemma WillingMeaning(o: Order, book: BookState, now: nat, side: Side)
    requires BookProofs.WellFormed(book)
    ensures WantsBook(book, now, side)(o) <==> Willing(o, book, now, side)
  {
    hide BookProofs.WellFormed;
    CrossesMeaning(o.intent, book);
    MarketMeaning.HashMeaning(book.hash);
  }

  /** What the willing orders of one side among `ids` still have open. */
  ghost function WillingSize(ids: seq<string>, orders: map<string, Order>, book: BookState, now: nat, side: Side): int
    requires forall id | id in ids :: id in orders
  {
    if ids == [] then 0
    else
      var o := orders[ids[|ids| - 1]];
      WillingSize(ids[..|ids| - 1], orders, book, now, side) + if Willing(o, book, now, side) then o.remainingSize else 0
  }

  lemma {:induction false} DemandIsWilling(ids: seq<string>, orders: map<string, Order>, book: BookState, now: nat, side: Side)
    requires BookProofs.WellFormed(book) && forall id | id in ids :: id in orders
    ensures Demand(ids, orders, WantsBook(book, now, side)) == WillingSize(ids, orders, book, now, side)
  {
    hide BookProofs.WellFormed, Willing;
    if ids != [] {
      DemandIsWilling(ids[..|ids| - 1], orders, book, now, side);
      WillingMeaning(orders[ids[|ids| - 1]], book, now, side);
    }
  }

  /** The participating share of the best level the side trades against; nothing where there is none. */
  ghost predicate IsShare(book: BookState, side: Side, bps: nat, share: int) {
    match side
    case Buy => if book.asks == [] then share == 0
      else exists l :: l in book.asks && (forall m | m in book.asks :: l.price <= m.price) && share == l.size * bps / 10_000
    case Sell => if book.bids == [] then share == 0
      else exists l :: l in book.bids && (forall m | m in book.bids :: l.price >= m.price) && share == l.size * bps / 10_000
  }

  lemma ShareMeaning(book: BookState, side: Side, bps: nat, share: int)
    requires BookProofs.WellFormed(book)
    ensures IsShare(book, side, bps, share) <==> share == Share(if side.Buy? then book.asks else book.bids, bps)
  {
    var levels := if side.Buy? then book.asks else book.bids;
    if levels != [] {
      assert levels[0] in levels;
      assert forall m | m in levels :: if side.Buy? then levels[0].price <= m.price else levels[0].price >= m.price;
      forall l | l in levels && (forall m | m in levels :: if side.Buy? then l.price <= m.price else l.price >= m.price)
        ensures l == levels[0]
      {
      }
    }
  }

  /**
   * A book update fills every willing order by what the share of its side leaves after the willing orders with smaller ids,
   * and no other order at all.
   */
  lemma BookServes(e: Engine, book: BookState, now: nat, k: nat, n: nat, share: int)
    requires Inv(e, k) && BookProofs.Inv(book) && ProcessBook(e, book, now).Ok? && n < |SortedKeys(e.orders.Keys)|
    requires SortedKeys(e.orders.Keys)[n] in e.orders
    requires IsShare(book, e.orders[SortedKeys(e.orders.Keys)[n]].intent.side, e.participationBps, share)
    ensures var d := ProcessBook(e, book, now).value.0;
      var ids := SortedKeys(e.orders.Keys);
      var o := e.orders[ids[n]];
      && ids[n] in d.orders && (forall id | id in ids[..n] :: id in e.orders)
      && d.orders[ids[n]].filledSize - o.filledSize
        == if Willing(o, book, now, o.intent.side)
           then Max(0, Min(o.remainingSize, share - WillingSize(ids[..n], e.orders, book, now, o.intent.side))) else 0
  {
    hide Inv, BookProofs.WellFormed, ProcessBook, Willing, Share, IsShare, SortedKeys;
    var ids := SortedKeys(e.orders.Keys);
    var o := e.orders[ids[n]];
    assert forall id | id in ids[..n] :: id in ids;
    BookAllocation(e, book, now, k, n);
    ShareMeaning(book, o.intent.side, e.participationBps, share);
    WillingMeaning(o, book, now, Buy);
    WillingMeaning(o, book, now, Sell);
    WillingSide(o, book, now);
    DemandIsWilling(ids[..n], e.orders, book, now, o.intent.side);
  }

  lemma WillingSide(o: Order, book: BookState, now: nat)
    ensures Willing(o, book, now, Buy) ==> o.intent.side == Buy
    ensures Willing(o, book, now, Sell) ==> o.intent.side == Sell
  {
  }

  /** A fill of a book update: some listed level on the other side is at the order's limit or better. */
  lemma BookFillCrosses(e: Engine, book: BookState, now: nat, k: nat, f: Fill)
    requires Inv(e, k) && BookProofs.Inv(book) && ProcessBook(e, book, now).Ok? && f in ProcessBook(e, book, now).value.1
    ensures f.clientOrderId in e.orders
    ensures var o := e.orders[f.clientOrderId];
      && Willing(o, book, now, f.side) && f.assetId == book.assetId && f.price == o.intent.limitPrice && 0 < f.size <= o.remainingSize
  {
    hide Inv, ProcessBook, BookProofs.WellFormed, Willing;
    ProcessBookSound(e, book, now, k);
    assert FillAllowed(e, f, book, now);
    FilledIsWanted(e, book, now, k, f);
    WillingMeaning(e.orders[f.clientOrderId], book, now, f.side);
  }

  lemma FilledIsWanted(e: Engine, book: BookState, now: nat, k: nat, f: Fill)
    requires Inv(e, k) && ProcessBook(e, book, now).Ok? && f in ProcessBook(e, book, now).value.1 && FillAllowed(e, f, book, now)
    ensures WantsBook(book, now, f.side)(e.orders[f.clientOrderId])
  {
    hide Inv, ApplyPlans, PassForBook, Ready, SortedKeys, BookVersion;
    InvFacts(e, k);
    var ids := SortedKeys(e.orders.Keys);
    var n :| 0 <= n < |ids| && ids[n] == f.clientOrderId;
    BookAllocation(e, book, now, k, n);
    var pass := BookStaging(e, book, now, k);
    InvFacts(Staged(e, pass), k);
    PlansExecute(Staged(e, pass), pass.plans, now);
    StagedProgress(e, book, now, k, f.clientOrderId);
    var i :| 0 <= i < |ProcessBook(e, book, now).value.1| && ProcessBook(e, book, now).value.1[i] == f;
    assert pass.plans[i].id == f.clientOrderId && pass.plans[i] in pass.plans;
    forall p | p in pass.plans ensures p.quantity > 0 {
    }
    PlannedForPositive(pass.plans, f.clientOrderId);
  }

  /** How an order comes out of a book update that filled `filled` of it: stamped, closed if it had expired, otherwise itself. */
  ghost predicate BookLeaves(o: Order, o': Order, filled: int, book: BookState, now: nat) {
    var rests := Rests(o, o.intent.side, book.assetId, now);
    var expired := IsRestingStatus(o.status) && o.intent.assetId == book.assetId && o.intent.expiresAt <= now;
    && o' == o.(status := o'.status, filledSize := o.filledSize + filled, remainingSize := o.remainingSize - filled,
                feesPaid := o'.feesPaid, lastBookVersion := o'.lastBookVersion)
    && o'.status == (if filled > 0 && filled == o.remainingSize then Filled else if filled > 0 then PartiallyFilled
                     else if expired then Cancelled else o.status)
    && (rests && book.tradeable && MarketMeaning.HasHash(book.hash) ==> Shown(o', book))
    && (!(rests && book.tradeable && MarketMeaning.HasHash(book.hash)) ==> o'.lastBookVersion == o.lastBookVersion)
  }

  ghost predicate IsRestingStatus(s: Status) {
    s == Submitted || s == Acknowledged || s == PartiallyFilled
  }

  lemma {:induction false} BookOrdersElsewhere(p: BookPass, ids: seq<string>, book: BookState, now: nat, j: string)
    requires (forall id | id in ids :: id in p.orders) && j !in ids && j in p.orders
    ensures PassForBook(p, ids, book, now).orders[j] == p.orders[j]
    decreases |ids|
  {
    if ids != [] {
      assert ids[0] in ids && forall id | id in ids[1..] :: id in ids;
      BookVisitElsewhere(p, ids[0], book, now, j);
      BookOrdersElsewhere(VisitForBook(p, ids[0], book, now), ids[1..], book, now, j);
    }
  }

  function Restamped(o: Order, book: BookState, now: nat): Order {
    if Live(o, book.assetId, now) && Verified(book) then o.(lastBookVersion := Some(BookVersion(book))) else o
  }

  lemma {:induction false} BookPassStamps(p: BookPass, ids: seq<string>, book: BookState, now: nat, j: string)
    requires (forall id | id in ids :: id in p.orders) && Distinct(ids) && j in ids
    ensures PassForBook(p, ids, book, now).orders[j] == Restamped(p.orders[j], book, now)
    decreases |ids|
  {
    assert ids[0] in ids && forall id | id in ids[1..] :: id in ids;
    if j == ids[0] {
      BookOrdersElsewhere(VisitForBook(p, j, book, now), ids[1..], book, now, j);
    } else {
      BookVisitElsewhere(p, ids[0], book, now, j);
      BookPassStamps(VisitForBook(p, ids[0], book, now), ids[1..], book, now, j);
    }
  }

  lemma FullPassStamped(e: Engine, book: BookState, now: nat, buy: int, sell: int, id: string)
    requires id in e.orders
    ensures FullPass(e, book, now, buy, sell).orders[id] == Restamped(e.orders[id], book, now)
  {
    SortedKeysDistinct(e.orders.Keys);
    BookPassStamps(BookPass(e.orders, [], [], buy, sell), SortedKeys(e.orders.Keys), book, now, id);
  }

  lemma BookOrders(e: Engine, book: BookState, now: nat, k: nat, id: string)
    requires Inv(e, k) && ProcessBook(e, book, now).Ok? && id in e.orders
    ensures id in ProcessBook(e, book, now).value.0.orders
    ensures var o' := ProcessBook(e, book, now).value.0.orders[id];
      BookLeaves(e.orders[id], o', o'.filledSize - e.orders[id].filledSize, book, now)
  {
    hide Inv, ProcessBook, ApplyPlans, Ready, PassForBook, SortedKeys, BookLeaves;
    InvFacts(e, k);
    var pass := BookStaging(e, book, now, k);
    var buy, sell := Liquidity(book, book.asks, e.participationBps).value, Liquidity(book, book.bids, e.participationBps).value;
    InvFacts(Staged(e, pass), k);
    StagedOrders(e, book, now, buy, sell);
    FullPassStamped(e, book, now, buy, sell, id);
    PlansProgress(Staged(e, pass), pass.plans, now);
    PlannedQuantity(e, pass, book, now, id);
    var o' := ProcessBook(e, book, now).value.0.orders[id];
    assert Progressed(Staged(e, pass).orders[id], o', PlannedFor(pass.plans, id));
    LeavesOrder(e.orders[id], Staged(e, pass).orders[id], o', PlannedFor(pass.plans, id), book, now);
  }

  lemma LeavesOrder(o: Order, staged: Order, o': Order, filled: int, book: BookState, now: nat)
    requires staged == ClosedIf(Restamped(o, book, now), Lapsed(o, book.assetId, now)) && Progressed(staged, o', filled)
    requires filled >= 0 && (filled > 0 ==> IsOpen(staged.status))
    ensures BookLeaves(o, o', filled, book, now) && o'.filledSize - o.filledSize == filled
  {
    hide Digits;
    MarketMeaning.HashMeaning(book.hash);
  }

  lemma PlannedQuantity(e: Engine, pass: BookPass, book: BookState, now: nat, id: string)
    requires Shape(Staged(e, pass)) && Ready(Staged(e, pass).orders, pass.plans) && id in Staged(e, pass).orders
    ensures PlannedFor(pass.plans, id) >= 0
    ensures PlannedFor(pass.plans, id) > 0 ==> IsOpen(Staged(e, pass).orders[id].status)
  {
    hide Shape;
    PlannedForPositive(pass.plans, id);
  }

  // ----- Trade prints -----

  /** An order a print can fill: resting on the side that was hit, with a limit the price reaches, older than the print. */
  ghost predicate Reached(o: Order, asset: string, price: int, aggressor: Side, timestamp: nat, now: nat) {
    && Rests(o, if aggressor == Buy then Sell else Buy, asset, now)
    && (if o.intent.side == Buy then price <= o.intent.limitPrice else price >= o.intent.limitPrice)
    && Older(o, timestamp)
  }

  /** Submitted before the print, and reached by no print since. */
  ghost predicate Older(o: Order, timestamp: nat) {
    (forall t | o.submittedAt == Some(t) :: t < timestamp) && (forall t | o.lastTradeTimestamp == Some(t) :: t < timestamp)
  }

  lemma ReachedMeaning(o: Order, asset: string, price: int, aggressor: Side, timestamp: nat, now: nat)
    ensures var t := Print(asset, price, if aggressor.Buy? then Sell else Buy, timestamp);
      Eligible(o, t, now) <==> Reached(o, asset, price, aggressor, timestamp, now)
  {
  }

  ghost function ReachedSize(ids: seq<string>, orders: map<string, Order>, asset: string, price: int, aggressor: Side, timestamp: nat, now: nat): int
    requires forall id | id in ids :: id in orders
  {
    if ids == [] then 0
    else
      var o := orders[ids[|ids| - 1]];
      ReachedSize(ids[..|ids| - 1], orders, asset, price, aggressor, timestamp, now)
      + if Reached(o, asset, price, aggressor, timestamp, now) then o.remainingSize else 0
  }

  lemma {:induction false} DemandIsReached(ids: seq<string>, orders: map<string, Order>, asset: string, price: int, aggressor: Side,
                                           timestamp: nat, now: nat)
    requires forall id | id in ids :: id in orders
    ensures var t := Print(asset, price, if aggressor.Buy? then Sell else Buy, timestamp);
      Demand(ids, orders, WantsTrade(t, now)) == ReachedSize(ids, orders, asset, price, aggressor, timestamp, now)
  {
    hide Reached, Eligible;
    if ids != [] {
      DemandIsReached(ids[..|ids| - 1], orders, asset, price, aggressor, timestamp, now);
      ReachedMeaning(orders[ids[|ids| - 1]], asset, price, aggressor, timestamp, now);
    }
  }

  /**
   * A trade print fills every order it reaches by what the participating share of its size leaves after the reached orders
   * with smaller ids, and no other order at all.
   */
  lemma PrintServes(e: Engine, asset: string, price: int, size: int, aggressor: Side, timestamp: nat, now: nat, k: nat, n: nat)
    requires Inv(e, k) && size > 0 && ProcessTrade(e, asset, price, Some(size), Some(aggressor), timestamp, now).Ok?
    requires n < |SortedKeys(e.orders.Keys)|
    ensures var d := ProcessTrade(e, asset, price, Some(size), Some(aggressor), timestamp, now).value.0;
      var ids := SortedKeys(e.orders.Keys);
      && ids[n] in e.orders && ids[n] in d.orders && (forall id | id in ids[..n] :: id in e.orders)
      && var o := e.orders[ids[n]];
      var before := ReachedSize(ids[..n], e.orders, asset, price, aggressor, timestamp, now);
      d.orders[ids[n]].filledSize - o.filledSize
        == if Reached(o, asset, price, aggressor, timestamp, now)
           then Max(0, Min(o.remainingSize, size * e.participationBps / 10_000 - before)) else 0
  {
    hide Inv, ProcessTrade, Reached, Eligible, SortedKeys;
    var ids := SortedKeys(e.orders.Keys);
    assert ids[n] in ids && forall id | id in ids[..n] :: id in ids;
    TradeAllocation(e, asset, price, size, aggressor, timestamp, now, k, n);
    ReachedMeaning(e.orders[ids[n]], asset, price, aggressor, timestamp, now);
    DemandIsReached(ids[..n], e.orders, asset, price, aggressor, timestamp, now);
  }

  /**
   * How an order comes out of a print that filled `filled` of it: stamped, whatever its limit, when it rests on the side that
   * was hit, is older than the print, and the share was not used up before.
   */
  ghost predicate PrintLeaves(o: Order, o': Order, filled: int, asset: string, aggressor: Side, timestamp: nat, now: nat, room: bool) {
    && o' == o.(status := o'.status, filledSize := o.filledSize + filled, remainingSize := o.remainingSize - filled,
                feesPaid := o'.feesPaid, lastTradeTimestamp := o'.lastTradeTimestamp)
    && o'.status == (if filled == 0 then o.status else if filled == o.remainingSize then Filled else PartiallyFilled)
    && o'.lastTradeTimestamp
       == if room && Rests(o, if aggressor == Buy then Sell else Buy, asset, now) && Older(o, timestamp) then Some(timestamp)
          else o.lastTradeTimestamp
  }

  lemma PrintOrders(e: Engine, asset: string, price: int, size: int, aggressor: Side, timestamp: nat, now: nat, k: nat, n: nat)
    requires Inv(e, k) && size > 0 && ProcessTrade(e, asset, price, Some(size), Some(aggressor), timestamp, now).Ok?
    requires n < |SortedKeys(e.orders.Keys)|
    ensures var d := ProcessTrade(e, asset, price, Some(size), Some(aggressor), timestamp, now).value.0;
      var ids := SortedKeys(e.orders.Keys);
      && ids[n] in e.orders && ids[n] in d.orders && (forall id | id in ids[..n] :: id in e.orders)
      && var o, o' := e.orders[ids[n]], d.orders[ids[n]];
      var before := ReachedSize(ids[..n], e.orders, asset, price, aggressor, timestamp, now);
      PrintLeaves(o, o', o'.filledSize - o.filledSize, asset, aggressor, timestamp, now, before < size * e.participationBps / 10_000)
  {
    hide Inv, Ready, ProcessTrade, Printed, Eligible, SortedKeys, PassForTrade, PrintLeaves, Stamped, Reached, Progressed, Shape;
    var t := PrintOf(asset, price, aggressor, timestamp);
    var ids, budget := SortedKeys(e.orders.Keys), size * e.participationBps / 10_000;
    assert ids[n] in ids && forall id | id in ids[..n] :: id in ids;
    assert 0 < price < SCALE && ParticipationAmount(size, e.participationBps).Ok? by {
      PrintShareExists(e, asset, price, size, aggressor, timestamp, now);
    }
    PrintIsPrinted(e, asset, price, size, aggressor, timestamp, now, k);
    var filled := PrintProgress(e, t, now, budget, k, ids[n]);
    assert Shape(e) by {
      InvFacts(e, k);
    }
    FullPassStamps(e, t, now, budget, n);
    DemandIsReached(ids[..n], e.orders, asset, price, aggressor, timestamp, now);
    var room := ReachedSize(ids[..n], e.orders, asset, price, aggressor, timestamp, now) < budget;
    var o' := ProcessTrade(e, asset, price, Some(size), Some(aggressor), timestamp, now).value.0.orders[ids[n]];
    PrintLeavesOrder(e.orders[ids[n]], o', filled, t, aggressor, now, room);
  }

  lemma PrintProgress(e: Engine, t: Print, now: nat, budget: nat, k: nat, id: string) returns (filled: nat)
    requires Inv(e, k) && id in e.orders && Printed(e, t, now, budget).Ok?
    ensures var d, staged := Printed(e, t, now, budget).value.0, TradePassOf(e, t, now, budget).orders;
      id in d.orders && id in staged && Progressed(staged[id], d.orders[id], filled)
  {
    hide Inv, Ready, PassForTrade, ApplyPlans, Progressed;
    InvFacts(e, k);
    TradePassReady(e, t, now, budget, k);
    var pass := TradePassOf(e, t, now, budget);
    var staged := e.(orders := pass.orders);
    InvFacts(staged, k);
    PlansProgress(staged, pass.plans, now);
    PlannedForPositive(pass.plans, id);
    filled := PlannedFor(pass.plans, id);
  }

  lemma PrintLeavesOrder(o: Order, o': Order, filled: int, t: Print, aggressor: Side, now: nat, room: bool)
    requires t.restingSide == (if aggressor == Buy then Sell else Buy) && filled >= 0
    requires Progressed(Stamped(o, t, now, room), o', filled)
    ensures PrintLeaves(o, o', filled, t.assetId, aggressor, t.timestamp, now, room) && o'.filledSize - o.filledSize == filled
  {
  }

  /** A print outside the price range is refused; one without a positive size or a known aggressor changes nothing. */
  lemma PrintIgnored(e: Engine, asset: string, price: int, size: Option<int>, aggressor: Option<Side>, timestamp: nat, now: nat)
    ensures var r := ProcessTrade(e, asset, price, size, aggressor, timestamp, now);
      && (price <= 0 || price >= 1_000_000 ==> r.Err?)
      && (0 < price < 1_000_000 && (size.None? || aggressor.None? || size.value <= 0) ==> r == Ok((e, [])))
  {
    hide PassForTrade, ApplyPlans;
  }

  // ----- Cancelling and pruning -----

  /** Exactly these orders are closed and listed; no other order changes, and nothing else. */
  ghost predicate Closes(e: Engine, after: (Engine, seq<string>), which: set<string>) {
    var (d, ids) := after;
    && d == e.(orders := d.orders) && d.orders.Keys == e.orders.Keys
    && (forall id :: id in ids <==> id in which)
    && (forall id | id in e.orders ::
          d.orders[id] == if id in which then e.orders[id].(status := Cancelled) else e.orders[id])
  }

  ghost function Resting(e: Engine): set<string> {
    set id | id in e.orders && IsRestingStatus(e.orders[id].status)
  }

  lemma ClosesChosen(e: Engine, chosen: Order -> bool, which: set<string>)
    requires forall o: Order :: chosen(o) ==> IsOpen(o.status)
    requires forall id :: id in which <==> id in e.orders && chosen(e.orders[id])
    ensures Closes(e, CancelWhere(e, chosen), which)
  {
    CancelWhereMeaning(e, chosen);
  }

  /** What the bulk cancellations close: every resting order, those that have expired, those of one asset. */
  lemma CancelsMeaning(e: Engine, now: nat, asset: string)
    ensures Closes(e, CancelWhere(e, OpenOrders()), Resting(e))
    ensures Closes(e, CancelWhere(e, OpenExpired(now)), set id | id in Resting(e) && e.orders[id].intent.expiresAt <= now)
    ensures Closes(e, CancelWhere(e, OpenOn(asset)), set id | id in Resting(e) && e.orders[id].intent.assetId == asset)
  {
    hide CancelWhere, Closes;
    ClosesChosen(e, OpenOrders(), Resting(e));
    ClosesChosen(e, OpenExpired(now), set id | id in Resting(e) && e.orders[id].intent.expiresAt <= now);
    ClosesChosen(e, OpenOn(asset), set id | id in Resting(e) && e.orders[id].intent.assetId == asset);
  }

  /** One cancellation closes a resting order and no other; pruning keeps the resting orders as they are. */
  lemma CancelOneMeaning(e: Engine, id: string)
    ensures Closes(e, (e.(orders := CancelOrder(e.orders, id)), if id in Resting(e) then [id] else []), Resting(e) * {id})
    ensures Pruned(e) == e.(orders := Pruned(e).orders) && Pruned(e).orders.Keys == Resting(e)
    ensures forall other | other in Resting(e) :: Pruned(e).orders[other] == e.orders[other]
  {
  }
}
