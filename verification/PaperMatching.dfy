/** Matching passes: one liquidity budget shared by every order, and who may be filled. */
module PaperMatching {
  import opened Prelude
  import opened Ordered
  import opened FixedPoint
  import opened Decimal
  import opened Book
  import opened MarketEvents
  import opened PaperCore
  import opened PaperInvariant
  import opened PaperPlans
  import opened PaperOrders

  // ----- Participation -----

  /** The participating share is the exact floor of `liquidity * bps / 10000`. */
  lemma ParticipationIsFloor(liquidity: int, bps: nat)
    requires liquidity >= 0 && ParticipationAmount(liquidity, bps).Ok?
    ensures ParticipationAmount(liquidity, bps).value == liquidity * bps / 10_000 >= 0
  {
    MulNonNegative(liquidity, bps);
    var v := ParticipationAmount(liquidity, bps).value;
    assert liquidity * (bps * 100) == (liquidity * bps) * 100;
  }

  // ----- Book pass -----

  predicate Live(o: Order, assetId: string, now: nat) {
    IsOpen(o.status) && o.intent.assetId == assetId && o.intent.expiresAt > now
  }

  predicate Lapsed(o: Order, assetId: string, now: nat) {
    IsOpen(o.status) && o.intent.assetId == assetId && o.intent.expiresAt <= now
  }

  predicate Verified(book: BookState) {
    book.tradeable && HasText(book.hash)
  }

  /** A plan that respects its order: open, unexpired, crossing, at its limit, within what remains. */
  predicate PlanRespects(orders: map<string, Order>, p: Plan, book: BookState, now: nat) {
    && p.id in orders && Live(orders[p.id], book.assetId, now) && Verified(book)
    && Crosses(orders[p.id].intent, book) && p.price == orders[p.id].intent.limitPrice
    && 0 < p.quantity <= orders[p.id].remainingSize
  }

  ghost predicate OnlyStamped(orders: map<string, Order>, orders': map<string, Order>) {
    orders'.Keys == orders.Keys
    && forall id | id in orders :: orders'[id] == orders[id].(lastBookVersion := orders'[id].lastBookVersion)
  }

  ghost predicate Planned(orders: map<string, Order>, plans: seq<Plan>, done: seq<string>, book: BookState, now: nat) {
    && (forall p | p in plans :: PlanRespects(orders, p, book, now))
    && (forall id | id in orders :: PlannedFor(plans, id) <= orders[id].remainingSize)
    && (forall id | id !in done :: PlannedFor(plans, id) == 0)
  }

  ghost predicate Budget(orders: map<string, Order>, p: BookPass, buy: int, sell: int)
    requires forall q | q in p.plans :: q.id in orders
  {
    && PlannedOn(p.plans, orders, Buy) + p.buyLiquidity == buy && p.buyLiquidity >= Min(buy, 0)
    && PlannedOn(p.plans, orders, Sell) + p.sellLiquidity == sell && p.sellLiquidity >= Min(sell, 0)
  }

  ghost predicate Stamps(orders: map<string, Order>, p: BookPass, done: seq<string>, book: BookState, now: nat)
    requires p.orders.Keys == orders.Keys
  {
    && (forall id | id in done && id in orders && Live(orders[id], book.assetId, now) && Verified(book) ::
          p.orders[id].lastBookVersion == Some(BookVersion(book)))
    && (forall id :: id in p.expired <==> id in done && id in orders && Lapsed(orders[id], book.assetId, now))
  }

  ghost predicate PassOk(orders: map<string, Order>, p: BookPass, done: seq<string>, book: BookState, now: nat, buy: int, sell: int) {
    && OnlyStamped(orders, p.orders)
    && Planned(orders, p.plans, done, book, now)
    && Budget(orders, p, buy, sell)
    && Stamps(orders, p, done, book, now)
  }

  lemma PlanAdded(orders: map<string, Order>, plans: seq<Plan>, done: seq<string>, q: Plan, book: BookState, now: nat)
    requires Planned(orders, plans, done, book, now) && PlanRespects(orders, q, book, now) && q.id !in done
    ensures Planned(orders, plans + [q], done + [q.id], book, now)
  {
    forall id ensures PlannedFor(plans + [q], id) == PlannedFor(plans, id) + (if q.id == id then q.quantity else 0) {
      PlannedAppend(plans, q, id);
    }
  }

  lemma PlannedElsewhere(orders: map<string, Order>, plans: seq<Plan>, done: seq<string>, id: string, book: BookState, now: nat)
    requires Planned(orders, plans, done, book, now)
    ensures Planned(orders, plans, done + [id], book, now)
  {
  }

  lemma VisitPlans(orders: map<string, Order>, p: BookPass, done: seq<string>, id: string, book: BookState, now: nat, buy: int, sell: int)
    requires OnlyStamped(orders, p.orders) && Planned(orders, p.plans, done, book, now) && Budget(orders, p, buy, sell)
    requires id in orders && id !in done
    ensures var p' := VisitForBook(p, id, book, now);
      Planned(orders, p'.plans, done + [id], book, now) && Budget(orders, p', buy, sell)
  {
    var o := p.orders[id];
    var p' := VisitForBook(p, id, book, now);
    if p'.plans == p.plans {
      PlannedElsewhere(orders, p.plans, done, id, book, now);
    } else {
      var quantity := Min(o.remainingSize, if o.intent.side.Buy? then p.buyLiquidity else p.sellLiquidity);
      var q := Plan(id, quantity, o.intent.limitPrice);
      PlanAdded(orders, p.plans, done, q, book, now);
      PlannedOnAppend(p.plans, q, orders, Buy);
      PlannedOnAppend(p.plans, q, orders, Sell);
    }
  }

  lemma VisitStamps(orders: map<string, Order>, p: BookPass, done: seq<string>, id: string, book: BookState, now: nat)
    requires OnlyStamped(orders, p.orders) && Stamps(orders, p, done, book, now) && id in orders && id !in done
    ensures var p' := VisitForBook(p, id, book, now);
      OnlyStamped(orders, p'.orders) && Stamps(orders, p', done + [id], book, now)
  {
  }

  lemma VisitKeepsPass(orders: map<string, Order>, p: BookPass, done: seq<string>, id: string, book: BookState, now: nat, buy: int, sell: int)
    requires PassOk(orders, p, done, book, now, buy, sell) && id in orders && id !in done
    ensures PassOk(orders, VisitForBook(p, id, book, now), done + [id], book, now, buy, sell)
  {
    VisitPlans(orders, p, done, id, book, now, buy, sell);
    VisitStamps(orders, p, done, id, book, now);
  }

  lemma DistinctTail(ids: seq<string>, done: seq<string>)
    requires ids != [] && Distinct(ids) && forall id | id in ids :: id !in done
    ensures Distinct(ids[1..]) && ids[0] in ids
    ensures forall id | id in ids[1..] :: id in ids && id !in done + [ids[0]]
  {
  }

  lemma {:induction false} PassKeeps(orders: map<string, Order>, p: BookPass, done: seq<string>, ids: seq<string>,
                                     book: BookState, now: nat, buy: int, sell: int)
    requires PassOk(orders, p, done, book, now, buy, sell) && Distinct(ids)
    requires forall id | id in ids :: id in orders && id !in done
    ensures PassOk(orders, PassForBook(p, ids, book, now), done + ids, book, now, buy, sell)
    decreases |ids|
  {
    if ids == [] {
      assert done + ids == done;
    } else {
      var first, rest := ids[0], ids[1..];
      DistinctTail(ids, done);
      VisitKeepsPass(orders, p, done, first, book, now, buy, sell);
      var p' := VisitForBook(p, first, book, now);
      assert PassForBook(p, ids, book, now) == PassForBook(p', rest, book, now);
      assert (done + [first]) + rest == done + ids;
      PassKeeps(orders, p', done + [first], rest, book, now, buy, sell);
    }
  }

  /** The full pass over all orders, from the liquidity of one book update. */
  function FullPass(e: Engine, book: BookState, now: nat, buy: int, sell: int): (pass: BookPass)
    ensures pass.orders.Keys == e.orders.Keys
  {
    PassForBook(BookPass(e.orders, [], [], buy, sell), SortedKeys(e.orders.Keys), book, now)
  }

  lemma FullPassOk(e: Engine, book: BookState, now: nat, buy: int, sell: int)
    requires Shape(e)
    ensures PassOk(e.orders, FullPass(e, book, now, buy, sell), SortedKeys(e.orders.Keys), book, now, buy, sell)
  {
    var ids := SortedKeys(e.orders.Keys);
    SortedKeysDistinct(e.orders.Keys);
    PassKeeps(e.orders, BookPass(e.orders, [], [], buy, sell), [], ids, book, now, buy, sell);
    assert [] + ids == ids;
  }

  /** The engine the plans of a book update run on: stamped, with expired orders closed. */
  function Staged(e: Engine, pass: BookPass): Engine {
    e.(orders := CancelIds(pass.orders, pass.expired))
  }

  lemma StagedOrders(e: Engine, book: BookState, now: nat, buy: int, sell: int)
    requires Shape(e)
    ensures var pass := FullPass(e, book, now, buy, sell);
      && Staged(e, pass).orders.Keys == e.orders.Keys
      && forall id | id in e.orders :: Staged(e, pass).orders[id] ==
          ClosedIf(pass.orders[id], Lapsed(e.orders[id], book.assetId, now))
  {
    FullPassOk(e, book, now, buy, sell);
    var pass := FullPass(e, book, now, buy, sell);
    CancelIdsMeaning(pass.orders, pass.expired);
  }

  lemma StagedReady(e: Engine, book: BookState, now: nat, buy: int, sell: int, k: nat)
    requires Inv(e, k)
    ensures var pass := FullPass(e, book, now, buy, sell);
      && Inv(Staged(e, pass), k) && Ready(Staged(e, pass).orders, pass.plans)
      && Staged(e, pass).orders.Keys == e.orders.Keys
      && forall id | id in e.orders :: Staged(e, pass).orders[id] ==
          ClosedIf(pass.orders[id], Lapsed(e.orders[id], book.assetId, now))
  {
    FullPassOk(e, book, now, buy, sell);
    var pass := FullPass(e, book, now, buy, sell);
    StagedOrders(e, book, now, buy, sell);
    RelaxedKeepsInv(e, Staged(e, pass).orders, k);
  }

  // ----- A book update -----

  /** A fill allowed by a book update: an open, unexpired, crossing order, at its limit, within what remained. */
  predicate FillAllowed(e: Engine, f: Fill, book: BookState, now: nat) {
    && f.clientOrderId in e.orders
    && var o := e.orders[f.clientOrderId];
    && Live(o, book.assetId, now) && Verified(book) && Crosses(o.intent, book)
    && f.side == o.intent.side && f.assetId == o.intent.assetId && f.price == o.intent.limitPrice
    && 0 < f.size <= o.remainingSize
  }

  /** Largest total a book update may fill on one side. */
  function Share(levels: seq<Level>, bps: nat): int {
    if TopSize(levels) <= 0 then 0 else TopSize(levels) * bps / 10_000
  }

  lemma BudgetBound(orders: map<string, Order>, p: BookPass, book: BookState, bps: nat, side: Side)
    requires forall q | q in p.plans :: q.id in orders
    requires Liquidity(book, book.asks, bps).Ok? && Liquidity(book, book.bids, bps).Ok?
    requires Budget(orders, p, Liquidity(book, book.asks, bps).value, Liquidity(book, book.bids, bps).value)
    ensures PlannedOn(p.plans, orders, side) <= Share(if side.Buy? then book.asks else book.bids, bps)
  {
    var liquidity := TopSize(if side.Buy? then book.asks else book.bids);
    if book.tradeable {
      if liquidity >= 0 {
        ParticipationIsFloor(liquidity, bps);
      } else {
        MulNonNegative(-liquidity, bps * 100);
        assert liquidity * (bps * 100) <= 0;
        assert ParticipationAmount(liquidity, bps).value <= 0;
      }
    }
  }

  /** The liquidity a book update starts from. */
  function Liquidity(book: BookState, levels: seq<Level>, bps: nat): Result<int> {
    if book.tradeable then ParticipationAmount(TopSize(levels), bps) else Ok(0)
  }

  function BookPassOf(e: Engine, book: BookState, now: nat): Result<BookPass> {
    var buy :- Liquidity(book, book.asks, e.participationBps);
    var sell :- Liquidity(book, book.bids, e.participationBps);
    Ok(FullPass(e, book, now, buy, sell))
  }

  lemma ProcessBookIsStaged(e: Engine, book: BookState, now: nat)
    ensures ProcessBook(e, book, now).Ok? ==> BookPassOf(e, book, now).Ok?
    ensures BookPassOf(e, book, now).Ok? ==>
      var pass := BookPassOf(e, book, now).value;
      var run := ApplyPlans(Staged(e, pass), pass.plans, now, []);
      && (ProcessBook(e, book, now).Ok? <==> run.Ok?)
      && (run.Ok? ==> ProcessBook(e, book, now).value == (run.value.0, run.value.1, pass.expired))
  {
  }

  lemma FillsAllowed(e: Engine, book: BookState, now: nat)
    requires Shape(e) && BookPassOf(e, book, now).Ok?
    requires var pass := BookPassOf(e, book, now).value;
      && Shape(Staged(e, pass)) && Ready(Staged(e, pass).orders, pass.plans)
      && OnlyStamped(e.orders, pass.orders)
      && (forall p | p in pass.plans :: PlanRespects(e.orders, p, book, now))
      && (forall id | id in e.orders && id in Staged(e, pass).orders :: Staged(e, pass).orders[id].intent == e.orders[id].intent)
      && ApplyPlans(Staged(e, pass), pass.plans, now, []).Ok?
    ensures var pass := BookPassOf(e, book, now).value;
      forall f | f in ApplyPlans(Staged(e, pass), pass.plans, now, []).value.1 :: FillAllowed(e, f, book, now)
  {
    var pass := BookPassOf(e, book, now).value;
    PlansExecute(Staged(e, pass), pass.plans, now);
    var fills := ApplyPlans(Staged(e, pass), pass.plans, now, []).value.1;
    forall f | f in fills ensures FillAllowed(e, f, book, now) {
      var i :| 0 <= i < |fills| && fills[i] == f;
      assert pass.plans[i] in pass.plans;
    }
  }

  lemma FillsWithinShare(e: Engine, book: BookState, now: nat, side: Side, k: nat)
    requires Inv(e, k) && ProcessBook(e, book, now).Ok?
    ensures FilledOn(ProcessBook(e, book, now).value.1, side) <= Share(if side.Buy? then book.asks else book.bids, e.participationBps)
  {
    ProcessBookIsStaged(e, book, now);
    var pass := BookPassOf(e, book, now).value;
    var buy := Liquidity(book, book.asks, e.participationBps).value;
    var sell := Liquidity(book, book.bids, e.participationBps).value;
    FullPassOk(e, book, now, buy, sell);
    StagedReady(e, book, now, buy, sell, k);
    PlansTotal(Staged(e, pass), pass.plans, now, side);
    SameSides(pass.plans, e.orders, Staged(e, pass).orders, side);
    BudgetBound(e.orders, pass, book, e.participationBps, side);
  }

  /** What the staged engine of a book update is, and that its plans are executable. */
  lemma BookStaging(e: Engine, book: BookState, now: nat, k: nat) returns (pass: BookPass)
    requires Inv(e, k) && ProcessBook(e, book, now).Ok?
    ensures BookPassOf(e, book, now) == Ok(pass)
    ensures OnlyStamped(e.orders, pass.orders) && forall p | p in pass.plans :: PlanRespects(e.orders, p, book, now)
    ensures Inv(Staged(e, pass), k) && Ready(Staged(e, pass).orders, pass.plans)
    ensures Staged(e, pass).orders.Keys == e.orders.Keys
    ensures forall id | id in e.orders :: Staged(e, pass).orders[id].intent == e.orders[id].intent
    ensures ApplyPlans(Staged(e, pass), pass.plans, now, []).Ok?
    ensures ProcessBook(e, book, now).value == (ApplyPlans(Staged(e, pass), pass.plans, now, []).value.0,
                                                ApplyPlans(Staged(e, pass), pass.plans, now, []).value.1, pass.expired)
  {
    hide Inv, ApplyPlans, PassForBook, SortedKeys, Ready;
    InvFacts(e, k);
    ProcessBookIsStaged(e, book, now);
    pass := BookPassOf(e, book, now).value;
    var buy := Liquidity(book, book.asks, e.participationBps).value;
    var sell := Liquidity(book, book.bids, e.participationBps).value;
    FullPassOk(e, book, now, buy, sell);
    StagedReady(e, book, now, buy, sell, k);
  }

  /** A book update keeps the invariant, counting the buys it left partially filled. */
  lemma ProcessBookKeepsInv(e: Engine, book: BookState, now: nat, k: nat)
    requires Inv(e, k) && ProcessBook(e, book, now).Ok?
    ensures var (d, fills, expired) := ProcessBook(e, book, now).value;
      && Inv(d, k + PartialBuys(fills))
      && d.feeBps == e.feeBps && d.participationBps == e.participationBps && d.startingCash == e.startingCash
  {
    var pass := BookStaging(e, book, now, k);
    PlansKeepInv(Staged(e, pass), pass.plans, now, k);
  }

  /**
   * One book update: the invariant is kept; only open, unexpired, crossing orders fill, at their limit;
   * all fills of a side together stay within the participating share of the top level on the other side.
   */
  lemma ProcessBookSound(e: Engine, book: BookState, now: nat, k: nat)
    requires Inv(e, k) && ProcessBook(e, book, now).Ok?
    ensures var (d, fills, expired) := ProcessBook(e, book, now).value;
      && Inv(d, k + PartialBuys(fills))
      && d.feeBps == e.feeBps && d.participationBps == e.participationBps && d.startingCash == e.startingCash
      && (forall f | f in fills :: FillAllowed(e, f, book, now))
      && FilledOn(fills, Buy) <= Share(book.asks, e.participationBps)
      && FilledOn(fills, Sell) <= Share(book.bids, e.participationBps)
  {
    var pass := BookStaging(e, book, now, k);
    FillsAllowed(e, book, now);
    ProcessBookKeepsInv(e, book, now, k);
    FillsWithinShare(e, book, now, Buy, k);
    FillsWithinShare(e, book, now, Sell, k);
  }

  /** How one order comes out of a book update. */
  ghost predicate BookOutcome(o: Order, o': Order, filled: int, book: BookState, now: nat) {
    && o'.intent == o.intent && o'.filledSize == o.filledSize + filled && o'.remainingSize == o.remainingSize - filled
    && 0 <= filled <= o.remainingSize
    && (filled > 0 ==> Live(o, book.assetId, now) && o'.status == if filled == o.remainingSize then Filled else PartiallyFilled)
    && (filled == 0 ==> o'.status == if Lapsed(o, book.assetId, now) then Cancelled else o.status)
    && (Live(o, book.assetId, now) && Verified(book) ==> o'.lastBookVersion == Some(BookVersion(book)))
  }

  lemma ProcessBookOrders(e: Engine, book: BookState, now: nat, k: nat)
    requires Inv(e, k) && ProcessBook(e, book, now).Ok?
    ensures var (d, fills, expired) := ProcessBook(e, book, now).value;
      && d.orders.Keys == e.orders.Keys
      && (forall id :: id in expired <==> id in e.orders && Lapsed(e.orders[id], book.assetId, now))
      && (forall id | id in e.orders :: exists filled :: BookOutcome(e.orders[id], d.orders[id], filled, book, now))
  {
    ProcessBookIsStaged(e, book, now);
    var pass := BookPassOf(e, book, now).value;
    var buy := Liquidity(book, book.asks, e.participationBps).value;
    var sell := Liquidity(book, book.bids, e.participationBps).value;
    FullPassOk(e, book, now, buy, sell);
    StagedReady(e, book, now, buy, sell, k);
    var staged := Staged(e, pass);
    PlansProgress(staged, pass.plans, now);
    var d := ProcessBook(e, book, now).value.0;
    forall id | id in e.orders ensures exists filled :: BookOutcome(e.orders[id], d.orders[id], filled, book, now) {
      var filled := PlannedFor(pass.plans, id);
      PlannedForPositive(pass.plans, id);
      assert Progressed(staged.orders[id], d.orders[id], filled);
      assert BookOutcome(e.orders[id], d.orders[id], filled, book, now);
    }
  }

  // ----- The same version again -----

  ghost predicate NothingNew(orders: map<string, Order>, book: BookState, now: nat) {
    forall id | id in orders :: Live(orders[id], book.assetId, now) && Verified(book) ==>
      orders[id].lastBookVersion == Some(BookVersion(book))
  }

  function HashText(book: BookState): string {
    if book.hash.Some? then book.hash.value else ""
  }

  lemma {:induction false} ColonSplits(a: string, b: string, x: string, y: string)
    requires AllDigits(a) && AllDigits(b) && a + ":" + x == b + ":" + y
    ensures a == b && x == y
  {
    assert IsDigit((a + ":" + x)[0]) <==> a != [];
    assert IsDigit((b + ":" + y)[0]) <==> b != [];
    if a == [] {
      assert (a + ":" + x)[1..] == x && (b + ":" + y)[1..] == y;
    } else {
      assert (a + ":" + x)[1..] == a[1..] + ":" + x && (b + ":" + y)[1..] == b[1..] + ":" + y;
      ColonSplits(a[1..], b[1..], x, y);
      assert a == [a[0]] + a[1..] && b == [b[0]] + b[1..];
    }
  }

  /** Two books count as the same version exactly when exchange timestamp and hash agree. */
  lemma SameVersion(b: BookState, c: BookState)
    ensures BookVersion(b) == BookVersion(c) <==> b.exchangeTimestamp == c.exchangeTimestamp && HashText(b) == HashText(c)
  {
    if BookVersion(b) == BookVersion(c) {
      ColonSplits(Digits(b.exchangeTimestamp), Digits(c.exchangeTimestamp), HashText(b), HashText(c));
      DigitsRoundTrip(b.exchangeTimestamp);
      DigitsRoundTrip(c.exchangeTimestamp);
    }
  }

  lemma {:induction false} NothingPlanned(p: BookPass, ids: seq<string>, book: BookState, now: nat)
    requires forall id | id in ids :: id in p.orders
    requires NothingNew(p.orders, book, now)
    ensures var after := PassForBook(p, ids, book, now);
      after.plans == p.plans && after.orders == p.orders && after.buyLiquidity == p.buyLiquidity
    ensures (forall id | id in ids :: !Lapsed(p.orders[id], book.assetId, now)) ==> PassForBook(p, ids, book, now) == p
    decreases |ids|
  {
    if ids != [] {
      NothingPlanned(VisitForBook(p, ids[0], book, now), ids[1..], book, now);
    }
  }

  /** Repeating a book version at once fills nothing, at whatever time; at the same time it changes nothing at all. */
  lemma RepeatFillsNothing(e: Engine, book: BookState, now: nat, later: nat, k: nat)
    requires Inv(e, k) && ProcessBook(e, book, now).Ok?
    ensures var d := ProcessBook(e, book, now).value.0;
      && ProcessBook(d, book, later).Ok?
      && ProcessBook(d, book, later).value.1 == []
      && (later == now ==> ProcessBook(d, book, later).value == (d, [], []))
  {
    hide Inv, ProcessBook, BookVersion, HasText, PassForBook, SortedKeys, Share;
    ProcessBookSound(e, book, now, k);
    ProcessBookOrders(e, book, now, k);
    var d := ProcessBook(e, book, now).value.0;
    forall id | id in d.orders ensures
      && !Lapsed(d.orders[id], book.assetId, now)
      && (Live(d.orders[id], book.assetId, later) && Verified(book) ==> d.orders[id].lastBookVersion == Some(BookVersion(book)))
    {
      var filled :| BookOutcome(e.orders[id], d.orders[id], filled, book, now);
    }
    ProcessBookIsStaged(e, book, now);
    ProcessBookIsStaged(d, book, later);
    var buy := Liquidity(book, book.asks, d.participationBps).value;
    var sell := Liquidity(book, book.bids, d.participationBps).value;
    NothingPlanned(BookPass(d.orders, [], [], buy, sell), SortedKeys(d.orders.Keys), book, later);
  }
}
