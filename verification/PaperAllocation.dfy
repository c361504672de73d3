/** How one liquidity budget is shared: in order of client order id, each order what is left, until nothing is. */
module PaperAllocation {
  import opened Prelude
  import opened Ordered
  import FixedPoint
  import opened Book
  import opened MarketEvents
  import opened PaperCore
  import opened PaperInvariant
  import opened PaperPlans
  import opened PaperMatching
  import opened PaperTrades

  /** What the orders of `ids` that want to fill still have open. */
  function Demand(ids: seq<string>, orders: map<string, Order>, wants: Order -> bool): int
    requires forall id | id in ids :: id in orders
  {
    if ids == [] then 0
    else
      var rest := Demand(ids[..|ids| - 1], orders, wants);
      var o := orders[ids[|ids| - 1]];
      if wants(o) then rest + o.remainingSize else rest
  }

  /** What a budget leaves after a demand; a negative budget serves nobody. */
  function Left(budget: int, demand: int): int {
    Max(Min(budget, 0), budget - demand)
  }

  /** What an order gets when `demand` comes before it. */
  function Given(o: Order, budget: int, demand: int): int {
    Max(0, Min(o.remainingSize, budget - demand))
  }

  lemma {:induction false} DemandNonNegative(ids: seq<string>, orders: map<string, Order>, wants: Order -> bool)
    requires forall id | id in ids :: id in orders && orders[id].remainingSize >= 0
    ensures Demand(ids, orders, wants) >= 0
  {
    if ids != [] {
      DemandNonNegative(ids[..|ids| - 1], orders, wants);
    }
  }

  lemma DemandAppend(ids: seq<string>, id: string, orders: map<string, Order>, wants: Order -> bool)
    requires id in orders && forall j | j in ids :: j in orders
    ensures Demand(ids + [id], orders, wants) == Demand(ids, orders, wants) + if wants(orders[id]) then orders[id].remainingSize else 0
  {
    assert (ids + [id])[..|ids|] == ids;
  }

  ghost predicate Sizes(orders: map<string, Order>) {
    forall id | id in orders :: orders[id].remainingSize >= 0 && (IsOpen(orders[id].status) ==> orders[id].remainingSize > 0)
  }

  // ----- A book update -----

  /** An order a book update can fill: live, not yet shown this version, crossing, on this side. */
  function WantsBook(book: BookState, now: nat, side: Side): Order -> bool {
    (o: Order) => Live(o, book.assetId, now) && Verified(book) && o.lastBookVersion != Some(BookVersion(book))
      && Crosses(o.intent, book) && o.intent.side == side
  }

  datatype Wants = Wants(buy: Order -> bool, sell: Order -> bool)

  function BookWants(book: BookState, now: nat): Wants {
    Wants(WantsBook(book, now, Buy), WantsBook(book, now, Sell))
  }

  datatype Budgets = Budgets(buy: int, sell: int)

  /** What a book update fills of an order when the orders of `done` come before it. */
  function BookShare(done: seq<string>, id: string, orders: map<string, Order>, w: Wants, b: Budgets): int
    requires id in orders && forall j | j in done :: j in orders
  {
    var o := orders[id];
    if w.buy(o) then Given(o, b.buy, Demand(done, orders, w.buy))
    else if w.sell(o) then Given(o, b.sell, Demand(done, orders, w.sell))
    else 0
  }

  ghost predicate BookAt(p: BookPass, done: seq<string>, orders: map<string, Order>, w: Wants, b: Budgets)
    requires forall id | id in done :: id in orders
  {
    && p.buyLiquidity == Left(b.buy, Demand(done, orders, w.buy))
    && p.sellLiquidity == Left(b.sell, Demand(done, orders, w.sell))
  }

  /** Not yet visited: as it was, and nothing planned for it. */
  predicate Unvisited(p: BookPass, id: string, orders: map<string, Order>) {
    id in orders && id in p.orders && p.orders[id] == orders[id] && PlannedFor(p.plans, id) == 0
  }

  lemma BookVisit(p: BookPass, done: seq<string>, id: string, orders: map<string, Order>, book: BookState, now: nat, w: Wants, b: Budgets)
    requires (forall j | j in done :: j in orders) && Unvisited(p, id, orders) && w == BookWants(book, now)
    requires Sizes(orders) && BookAt(p, done, orders, w, b)
    ensures var r := VisitForBook(p, id, book, now);
      BookAt(r, done + [id], orders, w, b) && PlannedFor(r.plans, id) == BookShare(done, id, orders, w, b)
  {
    var o := orders[id];
    DemandAppend(done, id, orders, w.buy);
    DemandAppend(done, id, orders, w.sell);
    DemandNonNegative(done, orders, w.buy);
    DemandNonNegative(done, orders, w.sell);
    PlannedAppend(p.plans, Plan(id, Min(o.remainingSize, if o.intent.side.Buy? then p.buyLiquidity else p.sellLiquidity), o.intent.limitPrice), id);
  }

  lemma BookVisitElsewhere(p: BookPass, id: string, book: BookState, now: nat, j: string)
    requires id in p.orders && j != id
    ensures var r := VisitForBook(p, id, book, now);
      PlannedFor(r.plans, j) == PlannedFor(p.plans, j) && (j in p.orders ==> r.orders[j] == p.orders[j])
  {
    var o := p.orders[id];
    PlannedAppend(p.plans, Plan(id, Min(o.remainingSize, if o.intent.side.Buy? then p.buyLiquidity else p.sellLiquidity), o.intent.limitPrice), j);
  }

  lemma {:induction false} BookPassElsewhere(p: BookPass, ids: seq<string>, book: BookState, now: nat, j: string)
    requires (forall id | id in ids :: id in p.orders) && j !in ids
    ensures PlannedFor(PassForBook(p, ids, book, now).plans, j) == PlannedFor(p.plans, j)
    decreases |ids|
  {
    if ids != [] {
      assert ids[0] in ids && forall id | id in ids[1..] :: id in ids;
      BookVisitElsewhere(p, ids[0], book, now, j);
      BookPassElsewhere(VisitForBook(p, ids[0], book, now), ids[1..], book, now, j);
    }
  }

  lemma StillUnvisited(p: BookPass, ids: seq<string>, orders: map<string, Order>, book: BookState, now: nat)
    requires ids != [] && Distinct(ids) && forall id | id in ids :: id in orders && id in p.orders && Unvisited(p, id, orders)
    ensures ids[0] !in ids[1..] && Distinct(ids[1..])
    ensures forall id | id in ids[1..] :: Unvisited(VisitForBook(p, ids[0], book, now), id, orders)
  {
    assert ids[0] in ids;
    forall id | id in ids[1..] ensures Unvisited(VisitForBook(p, ids[0], book, now), id, orders) {
      assert id in ids;
      BookVisitElsewhere(p, ids[0], book, now, id);
    }
  }

  /** The budgets after a pass. */
  lemma {:induction false} BookPassLeaves(p: BookPass, done: seq<string>, ids: seq<string>, orders: map<string, Order>,
      book: BookState, now: nat, w: Wants, b: Budgets)
    requires (forall id | id in ids :: id in orders && id in p.orders && Unvisited(p, id, orders)) && (forall j | j in done :: j in orders)
    requires Distinct(ids) && w == BookWants(book, now) && Sizes(orders) && BookAt(p, done, orders, w, b)
    ensures BookAt(PassForBook(p, ids, book, now), done + ids, orders, w, b)
    decreases |ids|
  {
    if ids == [] {
      assert done + ids == done;
    } else {
      BookVisit(p, done, ids[0], orders, book, now, w, b);
      StillUnvisited(p, ids, orders, book, now);
      assert done + [ids[0]] + ids[1..] == done + ids;
      BookPassLeaves(VisitForBook(p, ids[0], book, now), done + [ids[0]], ids[1..], orders, book, now, w, b);
    }
  }

  /** What a pass plans for the order at position `n`. */
  lemma {:induction false} BookPassShares(p: BookPass, done: seq<string>, ids: seq<string>, orders: map<string, Order>,
      book: BookState, now: nat, w: Wants, b: Budgets, n: nat)
    requires (forall id | id in ids :: id in orders && id in p.orders && Unvisited(p, id, orders)) && (forall j | j in done :: j in orders)
    requires Distinct(ids) && w == BookWants(book, now) && Sizes(orders) && BookAt(p, done, orders, w, b) && n < |ids|
    ensures PlannedFor(PassForBook(p, ids, book, now).plans, ids[n]) == BookShare(done + ids[..n], ids[n], orders, w, b)
    decreases |ids|
  {
    var first, rest := ids[0], ids[1..];
    BookVisit(p, done, first, orders, book, now, w, b);
    StillUnvisited(p, ids, orders, book, now);
    var q := VisitForBook(p, first, book, now);
    if n == 0 {
      assert done + ids[..0] == done;
      BookPassElsewhere(q, rest, book, now, first);
    } else {
      assert done + [first] + rest[..n - 1] == done + ids[..n];
      BookPassShares(q, done + [first], rest, orders, book, now, w, b, n - 1);
    }
  }

  function BookBudgets(e: Engine, book: BookState): Budgets {
    Budgets(Share(book.asks, e.participationBps), Share(book.bids, e.participationBps))
  }

  /** The starting liquidity is the participating share, as far as any order can tell. */
  lemma LiquidityIsShare(book: BookState, levels: seq<Level>, bps: nat)
    requires Liquidity(book, levels, bps).Ok?
    ensures book.tradeable ==> Share(levels, bps) == Max(Liquidity(book, levels, bps).value, 0)
    ensures Share(levels, bps) >= 0
  {
    var size := TopSize(levels);
    if size > 0 {
      assert size * bps >= 0;
      if book.tradeable {
        ParticipationIsFloor(size, bps);
      }
    } else if book.tradeable {
      FixedPoint.MulNonNegative(-size, bps * 100);
      assert size * (bps * 100) <= 0;
    }
  }

  /** A budget below zero serves as none. */
  lemma NegativeBudget(o: Order, budget: int, demand: nat)
    requires o.remainingSize >= 0
    ensures Given(o, Max(budget, 0), demand) == Given(o, budget, demand)
    ensures budget - Left(budget, demand) == Min(Max(budget, 0), demand)
  {
  }

  lemma SharesAsBudgets(done: seq<string>, id: string, orders: map<string, Order>, book: BookState, now: nat, bps: nat)
    requires Sizes(orders) && id in orders && forall j | j in done :: j in orders
    requires Liquidity(book, book.asks, bps).Ok? && Liquidity(book, book.bids, bps).Ok?
    ensures BookShare(done, id, orders, BookWants(book, now), Budgets(Share(book.asks, bps), Share(book.bids, bps)))
      == BookShare(done, id, orders, BookWants(book, now), Budgets(Liquidity(book, book.asks, bps).value, Liquidity(book, book.bids, bps).value))
  {
    var w := BookWants(book, now);
    LiquidityIsShare(book, book.asks, bps);
    LiquidityIsShare(book, book.bids, bps);
    DemandNonNegative(done, orders, w.buy);
    DemandNonNegative(done, orders, w.sell);
    NegativeBudget(orders[id], Liquidity(book, book.asks, bps).value, Demand(done, orders, w.buy));
    NegativeBudget(orders[id], Liquidity(book, book.bids, bps).value, Demand(done, orders, w.sell));
  }

  /** What the full pass plans, in terms of the participating shares. */
  lemma FullPassShares(e: Engine, book: BookState, now: nat, buy: int, sell: int, n: nat)
    requires Shape(e) && n < |SortedKeys(e.orders.Keys)|
    ensures var ids := SortedKeys(e.orders.Keys);
      PlannedFor(FullPass(e, book, now, buy, sell).plans, ids[n])
        == BookShare(ids[..n], ids[n], e.orders, BookWants(book, now), Budgets(buy, sell))
  {
    var ids := SortedKeys(e.orders.Keys);
    SortedKeysDistinct(e.orders.Keys);
    BookPassShares(BookPass(e.orders, [], [], buy, sell), [], ids, e.orders, book, now, BookWants(book, now), Budgets(buy, sell), n);
    assert [] + ids[..n] == ids[..n];
  }

  lemma StagedProgress(e: Engine, book: BookState, now: nat, k: nat, id: string)
    requires Inv(e, k) && ProcessBook(e, book, now).Ok? && id in e.orders
    ensures BookPassOf(e, book, now).Ok? && id in ProcessBook(e, book, now).value.0.orders
    ensures ProcessBook(e, book, now).value.0.orders[id].filledSize - e.orders[id].filledSize
      == PlannedFor(BookPassOf(e, book, now).value.plans, id)
  {
    hide Inv, ProcessBook, ApplyPlans, Ready, PassForBook, SortedKeys;
    InvFacts(e, k);
    var pass := BookStaging(e, book, now, k);
    InvFacts(Staged(e, pass), k);
    PlansProgress(Staged(e, pass), pass.plans, now);
    var buy, sell := Liquidity(book, book.asks, e.participationBps).value, Liquidity(book, book.bids, e.participationBps).value;
    StagedOrders(e, book, now, buy, sell);
  }

  /**
   * One book update fills each order by exactly what its side's share leaves after the orders with smaller ids that can
   * fill, and no order else.
   */
  lemma BookAllocation(e: Engine, book: BookState, now: nat, k: nat, n: nat)
    requires Inv(e, k) && ProcessBook(e, book, now).Ok? && n < |SortedKeys(e.orders.Keys)|
    ensures var d := ProcessBook(e, book, now).value.0;
      var ids := SortedKeys(e.orders.Keys);
      ids[n] in d.orders && d.orders[ids[n]].filledSize - e.orders[ids[n]].filledSize
        == BookShare(ids[..n], ids[n], e.orders, BookWants(book, now), BookBudgets(e, book))
  {
    var ids := SortedKeys(e.orders.Keys);
    assert ids[n] in e.orders && forall j | j in ids[..n] :: j in e.orders;
    StagedProgress(e, book, now, k, ids[n]);
    FullPassShares(e, book, now, Liquidity(book, book.asks, e.participationBps).value, Liquidity(book, book.bids, e.participationBps).value, n);
    SharesAsBudgets(ids[..n], ids[n], e.orders, book, now, e.participationBps);
  }

  lemma FilledIsPlanned(e: Engine, book: BookState, now: nat, k: nat, side: Side)
    requires Inv(e, k) && ProcessBook(e, book, now).Ok?
    ensures BookPassOf(e, book, now).Ok?
    ensures var pass := BookPassOf(e, book, now).value;
      var budget := Liquidity(book, if side.Buy? then book.asks else book.bids, e.participationBps).value;
      FilledOn(ProcessBook(e, book, now).value.1, side) == budget - if side.Buy? then pass.buyLiquidity else pass.sellLiquidity
  {
    var pass := BookStaging(e, book, now, k);
    var buy, sell := Liquidity(book, book.asks, e.participationBps).value, Liquidity(book, book.bids, e.participationBps).value;
    FullPassOk(e, book, now, buy, sell);
    PlansTotal(Staged(e, pass), pass.plans, now, side);
    SameSides(pass.plans, e.orders, Staged(e, pass).orders, side);
  }

  lemma FullPassLeaves(e: Engine, book: BookState, now: nat, buy: int, sell: int)
    requires Shape(e)
    ensures BookAt(FullPass(e, book, now, buy, sell), SortedKeys(e.orders.Keys), e.orders, BookWants(book, now), Budgets(buy, sell))
  {
    var ids := SortedKeys(e.orders.Keys);
    SortedKeysDistinct(e.orders.Keys);
    BookPassLeaves(BookPass(e.orders, [], [], buy, sell), [], ids, e.orders, book, now, BookWants(book, now), Budgets(buy, sell));
    assert [] + ids == ids;
  }

  lemma FilledIsServed(e: Engine, book: BookState, now: nat, k: nat, side: Side)
    requires Inv(e, k) && ProcessBook(e, book, now).Ok?
    ensures Liquidity(book, if side.Buy? then book.asks else book.bids, e.participationBps).Ok?
    ensures var budget := Liquidity(book, if side.Buy? then book.asks else book.bids, e.participationBps).value;
      FilledOn(ProcessBook(e, book, now).value.1, side)
        == budget - Left(budget, Demand(SortedKeys(e.orders.Keys), e.orders, WantsBook(book, now, side)))
  {
    FilledIsPlanned(e, book, now, k, side);
    FullPassLeaves(e, book, now, Liquidity(book, book.asks, e.participationBps).value, Liquidity(book, book.bids, e.participationBps).value);
  }

  /** No liquidity is wasted: the fills of a side are its share or, where that is less, all that its orders ask for. */
  lemma BookExhausts(e: Engine, book: BookState, now: nat, k: nat, side: Side)
    requires Inv(e, k) && ProcessBook(e, book, now).Ok?
    ensures var share := Share(if side.Buy? then book.asks else book.bids, e.participationBps);
      FilledOn(ProcessBook(e, book, now).value.1, side)
      == Min(share, Demand(SortedKeys(e.orders.Keys), e.orders, WantsBook(book, now, side)))
  {
    hide Inv, ProcessBook, SortedKeys, BookVersion, HasText;
    InvFacts(e, k);
    var ids, wants := SortedKeys(e.orders.Keys), WantsBook(book, now, side);
    FilledIsServed(e, book, now, k, side);
    LiquidityIsShare(book, if side.Buy? then book.asks else book.bids, e.participationBps);
    DemandNonNegative(ids, e.orders, wants);
    if !Verified(book) {
      NoDemand(ids, e.orders, wants);
    }
  }

  lemma {:induction false} NoDemand(ids: seq<string>, orders: map<string, Order>, wants: Order -> bool)
    requires forall id | id in ids :: id in orders && !wants(orders[id])
    ensures Demand(ids, orders, wants) == 0
  {
    if ids != [] {
      assert ids[|ids| - 1] in ids;
      NoDemand(ids[..|ids| - 1], orders, wants);
    }
  }

  // ----- A trade print -----

  function WantsTrade(t: Print, now: nat): Order -> bool {
    (o: Order) => Eligible(o, t, now)
  }

  /** What a print fills of an order when the orders of `done` come before it. */
  function TradeShare(done: seq<string>, id: string, orders: map<string, Order>, wants: Order -> bool, budget: int): int
    requires id in orders && forall j | j in done :: j in orders
  {
    if wants(orders[id]) then Given(orders[id], budget, Demand(done, orders, wants)) else 0
  }

  predicate TradeUnvisited(p: TradePass, id: string, orders: map<string, Order>) {
    id in orders && id in p.orders && p.orders[id] == orders[id] && PlannedFor(p.plans, id) == 0
  }

  lemma TradeVisit(p: TradePass, done: seq<string>, id: string, orders: map<string, Order>, t: Print, now: nat, wants: Order -> bool, budget: nat)
    requires (forall j | j in done :: j in orders) && TradeUnvisited(p, id, orders) && wants == WantsTrade(t, now)
    requires Sizes(orders) && p.liquidity == Left(budget, Demand(done, orders, wants))
    ensures var r := VisitForTrade(p, id, t, now);
      r.liquidity == Left(budget, Demand(done + [id], orders, wants)) && PlannedFor(r.plans, id) == TradeShare(done, id, orders, wants, budget)
  {
    DemandAppend(done, id, orders, wants);
    DemandNonNegative(done, orders, wants);
    PlannedAppend(p.plans, Plan(id, Min(orders[id].remainingSize, p.liquidity), orders[id].intent.limitPrice), id);
  }

  lemma TradeVisitElsewhere(p: TradePass, id: string, t: Print, now: nat, j: string)
    requires id in p.orders && j != id
    ensures var r := VisitForTrade(p, id, t, now);
      PlannedFor(r.plans, j) == PlannedFor(p.plans, j) && (j in p.orders ==> r.orders[j] == p.orders[j])
  {
    PlannedAppend(p.plans, Plan(id, Min(p.orders[id].remainingSize, p.liquidity), p.orders[id].intent.limitPrice), j);
  }

  lemma {:induction false} TradePassElsewhere(p: TradePass, ids: seq<string>, t: Print, now: nat, j: string)
    requires (forall id | id in ids :: id in p.orders) && j !in ids
    ensures PlannedFor(PassForTrade(p, ids, t, now).plans, j) == PlannedFor(p.plans, j)
    decreases |ids|
  {
    if ids != [] {
      assert ids[0] in ids && forall id | id in ids[1..] :: id in ids;
      TradeVisitElsewhere(p, ids[0], t, now, j);
      TradePassElsewhere(VisitForTrade(p, ids[0], t, now), ids[1..], t, now, j);
    }
  }

  lemma TradeStillUnvisited(p: TradePass, ids: seq<string>, orders: map<string, Order>, t: Print, now: nat)
    requires ids != [] && Distinct(ids) && forall id | id in ids :: id in orders && id in p.orders && TradeUnvisited(p, id, orders)
    ensures ids[0] !in ids[1..] && Distinct(ids[1..])
    ensures forall id | id in ids[1..] :: TradeUnvisited(VisitForTrade(p, ids[0], t, now), id, orders)
  {
    assert ids[0] in ids;
    forall id | id in ids[1..] ensures TradeUnvisited(VisitForTrade(p, ids[0], t, now), id, orders) {
      assert id in ids;
      TradeVisitElsewhere(p, ids[0], t, now, id);
    }
  }

  /** What a pass plans for the order at position `n`. */
  lemma {:induction false} TradePassShares(p: TradePass, done: seq<string>, ids: seq<string>, orders: map<string, Order>,
      t: Print, now: nat, wants: Order -> bool, budget: nat, n: nat)
    requires (forall id | id in ids :: id in orders && id in p.orders && TradeUnvisited(p, id, orders)) && (forall j | j in done :: j in orders)
    requires Distinct(ids) && wants == WantsTrade(t, now) && Sizes(orders) && n < |ids|
    requires p.liquidity == Left(budget, Demand(done, orders, wants))
    ensures PlannedFor(PassForTrade(p, ids, t, now).plans, ids[n]) == TradeShare(done + ids[..n], ids[n], orders, wants, budget)
    decreases |ids|
  {
    var first, rest := ids[0], ids[1..];
    TradeVisit(p, done, first, orders, t, now, wants, budget);
    TradeStillUnvisited(p, ids, orders, t, now);
    var q := VisitForTrade(p, first, t, now);
    if n == 0 {
      assert done + ids[..0] == done;
      TradePassElsewhere(q, rest, t, now, first);
    } else {
      assert done + [first] + rest[..n - 1] == done + ids[..n];
      TradePassShares(q, done + [first], rest, orders, t, now, wants, budget, n - 1);
    }
  }

  lemma FullTradeShares(e: Engine, t: Print, now: nat, budget: nat, n: nat)
    requires Shape(e) && n < |SortedKeys(e.orders.Keys)|
    ensures var ids := SortedKeys(e.orders.Keys);
      PlannedFor(TradePassOf(e, t, now, budget).plans, ids[n]) == TradeShare(ids[..n], ids[n], e.orders, WantsTrade(t, now), budget)
  {
    var ids := SortedKeys(e.orders.Keys);
    SortedKeysDistinct(e.orders.Keys);
    TradePassShares(TradePass(e.orders, [], budget), [], ids, e.orders, t, now, WantsTrade(t, now), budget, n);
    assert [] + ids[..n] == ids[..n];
  }

  lemma TradeProgress(e: Engine, t: Print, now: nat, budget: nat, k: nat, id: string)
    requires Inv(e, k) && id in e.orders
    requires var pass := TradePassOf(e, t, now, budget);
      ApplyPlans(e.(orders := pass.orders), pass.plans, now, []).Ok?
    ensures var pass := TradePassOf(e, t, now, budget);
      var d := ApplyPlans(e.(orders := pass.orders), pass.plans, now, []).value.0;
      id in d.orders && d.orders[id].filledSize - e.orders[id].filledSize == PlannedFor(pass.plans, id)
  {
    TradePassReady(e, t, now, budget, k);
    var pass := TradePassOf(e, t, now, budget);
    PlansProgress(e.(orders := pass.orders), pass.plans, now);
  }

  /**
   * One trade print fills each order by exactly what the participating share of its size leaves after the eligible
   * orders with smaller ids, and no order else.
   */
  lemma TradeAllocation(e: Engine, assetId: string, price: int, size: int, aggressor: Side, timestamp: nat, now: nat, k: nat, n: nat)
    requires Inv(e, k) && size > 0 && ProcessTrade(e, assetId, price, Some(size), Some(aggressor), timestamp, now).Ok?
    requires n < |SortedKeys(e.orders.Keys)|
    ensures var d := ProcessTrade(e, assetId, price, Some(size), Some(aggressor), timestamp, now).value.0;
      var t := Print(assetId, price, if aggressor.Buy? then Sell else Buy, timestamp);
      var ids := SortedKeys(e.orders.Keys);
      ids[n] in d.orders && d.orders[ids[n]].filledSize - e.orders[ids[n]].filledSize
        == TradeShare(ids[..n], ids[n], e.orders, WantsTrade(t, now), size * e.participationBps / 10_000)
  {
    var t := Print(assetId, price, if aggressor.Buy? then Sell else Buy, timestamp);
    var ids := SortedKeys(e.orders.Keys);
    assert ids[n] in e.orders && forall j | j in ids[..n] :: j in e.orders;
    ParticipationIsFloor(size, e.participationBps);
    var budget := ParticipationAmount(size, e.participationBps).value;
    TradePassReady(e, t, now, budget, k);
    TradeProgress(e, t, now, budget, k, ids[n]);
    FullTradeShares(e, t, now, budget, n);
  }
}
