/** The sorted-list book refines a plain price-to-size map, and what holds in every state it reaches. */
module BookProofs {
  import opened Prelude
  import opened FixedPoint
  import opened Book
  import opened MarketEvents

  // ----- Reference model: two maps, nothing sorted -----

  datatype MapBook = MapBook(
    assetId: string, bids: map<int, int>, asks: map<int, int>, lastTradePrice: Option<int>,
    lastTradeTimestamp: Option<nat>, tickSize: int, minOrderSize: int, hash: Option<string>,
    exchangeTimestamp: nat, receivedAt: nat, tradeable: bool)

  ghost function Abstract(b: BookState): MapBook {
    MapBook(b.assetId, MapOf(b.bids), MapOf(b.asks), b.lastTradePrice, b.lastTradeTimestamp, b.tickSize,
            b.minOrderSize, b.hash, b.exchangeTimestamp, b.receivedAt, b.tradeable)
  }

  function MapReject(m: MapBook, error: string): (MapBook, Result<()>) {
    (m.(tradeable := false), Err(error))
  }

  ghost function BestBid(m: MapBook): Option<int> {
    Top(m.bids, true)
  }

  ghost function BestAsk(m: MapBook): Option<int> {
    Top(m.asks, false)
  }

  function MapChange(m: MapBook, c: PriceChange): MapBook {
    if c.side.Buy? then m.(bids := ChangedMap(m.bids, c.price, c.size))
    else m.(asks := ChangedMap(m.asks, c.price, c.size))
  }

  function MapChanges(m: MapBook, changes: seq<PriceChange>): MapBook
    decreases |changes|
  {
    if changes == [] then m else MapChanges(MapChange(m, changes[0]), changes[1..])
  }

  ghost function MapAfterDelta(m: MapBook, timestamp: nat, now: nat, matching: seq<PriceChange>): (MapBook, Result<()>)
    requires matching != []
  {
    var last := matching[|matching| - 1];
    var changed := MapChanges(m, matching).(hash := last.hash);
    var stamped := changed.(exchangeTimestamp := timestamp, receivedAt := now);
    if Differs(last.bestBid, BestBid(changed)) || Differs(last.bestAsk, BestAsk(changed)) then
      MapReject(changed, "book_top_diverged_after_delta")
    else if CrossedOrLocked(BestBid(changed), BestAsk(changed)) then
      MapReject(stamped, "crossed_or_locked_book_after_delta")
    else (stamped, Ok(()))
  }

  ghost function MapDelta(m: MapBook, timestamp: nat, changes: seq<PriceChange>, now: nat): (MapBook, Result<()>) {
    var matching := Matching(changes, m.assetId);
    if matching == [] then (m, Ok(()))
    else if !m.tradeable || !HasText(m.hash) then MapReject(m, "delta_without_authoritative_book")
    else
      var timing := TimingError(timestamp, now, m.exchangeTimestamp);
      var last := matching[|matching| - 1];
      var invalid := DeltaError(matching, m.tickSize);
      if timing.Some? then MapReject(m, timing.value)
      else if !HasText(last.hash) then MapReject(m, "price_change_hash_missing")
      else if invalid.Some? then MapReject(m, invalid.value)
      else MapAfterDelta(m, timestamp, now, matching)
  }

  ghost function MapSnapshot(m: MapBook, timestamp: nat, hash: Option<string>, bids: seq<Level>, asks: seq<Level>, now: nat)
    : (MapBook, Result<()>)
  {
    var timing := TimingError(timestamp, now, m.exchangeTimestamp);
    var invalid := SnapshotError(bids, asks, m.tickSize);
    if timing.Some? then MapReject(m, timing.value)
    else if invalid.Some? then MapReject(m, invalid.value)
    else if !HasText(hash) then MapReject(m, "authoritative_book_hash_missing")
    else
      (m.(bids := MapOf(bids), asks := MapOf(asks), hash := hash, exchangeTimestamp := timestamp, receivedAt := now,
          tradeable := bids != [] && asks != []), Ok(()))
  }

  ghost function MapTick(m: MapBook, timestamp: nat, oldTick: int, newTick: int, now: nat): (MapBook, Result<()>) {
    var timing := TimingError(timestamp, now, m.exchangeTimestamp);
    if timing.Some? then MapReject(m, timing.value)
    else if newTick <= 0 || oldTick != m.tickSize then MapReject(m, "tick_size_transition_invalid")
    else (m.(tickSize := newTick, exchangeTimestamp := timestamp, receivedAt := now, tradeable := false), Ok(()))
  }

  ghost function MapTop(m: MapBook, timestamp: nat, bid: int, ask: int, now: nat): (MapBook, Result<()>) {
    if timestamp < m.exchangeTimestamp then (m, Ok(()))
    else if timestamp > now then MapReject(m, "market_event_timestamp_after_receipt")
    else if bid < ask && IsAlignedToTick(bid, m.tickSize) && IsAlignedToTick(ask, m.tickSize)
      && BestBid(m) == Some(bid) && BestAsk(m) == Some(ask) then (m, Ok(()))
    else MapReject(m, "best_bid_ask_diverged")
  }

  ghost function MapTrade(m: MapBook, timestamp: nat, price: int, size: Option<int>, now: nat): (MapBook, Result<()>) {
    if timestamp < m.exchangeTimestamp then (m, Ok(()))
    else if timestamp > now then MapReject(m, "market_event_timestamp_after_receipt")
    else if price <= 0 || price >= SCALE || (size.Some? && size.value <= 0) then MapReject(m, "last_trade_invalid")
    else if m.lastTradeTimestamp.Some? && timestamp <= m.lastTradeTimestamp.value then (m, Ok(()))
    else (m.(lastTradePrice := Some(price), lastTradeTimestamp := Some(timestamp)), Ok(()))
  }

  ghost function MapEvent(m: MapBook, e: MarketEvent, now: nat): (MapBook, Result<()>) {
    match e
    case BookSnapshot(asset, timestamp, hash, bids, asks) =>
      if asset == m.assetId then MapSnapshot(m, timestamp, hash, bids, asks, now) else (m, Ok(()))
    case PriceChanges(timestamp, changes) => MapDelta(m, timestamp, changes, now)
    case TickSizeChange(asset, timestamp, oldTick, newTick) =>
      if asset == m.assetId then MapTick(m, timestamp, oldTick, newTick, now) else (m, Ok(()))
    case BestBidAsk(asset, timestamp, bid, ask) =>
      if asset == m.assetId then MapTop(m, timestamp, bid, ask, now) else (m, Ok(()))
    case LastTradePrice(asset, timestamp, price, size, _) =>
      if asset == m.assetId then MapTrade(m, timestamp, price, size, now) else (m, Ok(()))
    case MarketResolved(assets) => (if m.assetId in assets then m.(tradeable := false) else m, Ok(()))
    case NewMarket(_) => (m, Ok(()))
  }

  // ----- Invariant -----

  ghost predicate GoodSide(levels: seq<Level>, desc: bool) {
    StrictlySorted(levels, desc) && forall l | l in levels :: 0 < l.price < SCALE && l.size > 0
  }

  ghost predicate Aligned(levels: seq<Level>, tick: int) {
    forall l | l in levels :: IsAlignedToTick(l.price, tick)
  }

  ghost predicate WellFormed(b: BookState) {
    && GoodSide(b.bids, true) && GoodSide(b.asks, false)
    && b.bestBid == Head(b.bids) && b.bestAsk == Head(b.asks)
  }

  /** What being tradeable promises: a verified book, aligned to the current tick, not crossed. */
  ghost predicate Inv(b: BookState) {
    && WellFormed(b)
    && (b.tradeable ==>
      && HasText(b.hash) && b.tickSize > 0
      && Aligned(b.bids, b.tickSize) && Aligned(b.asks, b.tickSize)
      && !CrossedOrLocked(b.bestBid, b.bestAsk))
  }

  // ----- Validators -----

  ghost predicate ValidLevels(levels: seq<Level>, tick: int) {
    forall l | l in levels :: tick > 0 && 0 < l.price < SCALE && l.size > 0 && IsAlignedToTick(l.price, tick)
  }

  lemma {:induction false} SideErrorMeaning(levels: seq<Level>, seen: set<int>, tick: int, duplicate: string)
    ensures SideError(levels, seen, tick, duplicate).None? <==>
      ValidLevels(levels, tick) && DistinctPrices(levels) && forall l | l in levels :: l.price !in seen
  {
    if levels != [] {
      var first, rest := levels[0], levels[1..];
      SideErrorMeaning(rest, seen + {first.price}, tick, duplicate);
      assert levels == [first] + rest;
      if DistinctPrices(levels) {
        forall l | l in rest ensures l.price != first.price {
        }
      }
      if SideError(levels, seen, tick, duplicate).None? {
        forall i, j | 0 <= i < j < |levels| ensures levels[i].price != levels[j].price {
          assert levels[j] in rest;
        }
      }
    }
  }

  lemma {:induction false} ExtremeIsTop(levels: seq<Level>, desc: bool)
    requires DistinctPrices(levels)
    ensures Extreme(levels, desc) == Top(MapOf(levels), desc)
  {
    var m := MapOf(levels);
    if levels == [] {
      assert forall p :: !IsTop(p, m, desc);
    } else {
      ExtremeIsTop(levels[1..], desc);
      RestMap(levels);
      var p := Extreme(levels, desc).value;
      if levels[1..] != [] {
        MapOfKey(levels[1..], levels[1].price);
        assert levels[1..][0].price == levels[1].price;
      }
      assert IsTop(p, m, desc);
      TopUnique(p, Top(m, desc).value, m, desc);
    }
  }

  /** Exactly which snapshots are accepted. */
  lemma SnapshotAccepted(bids: seq<Level>, asks: seq<Level>, tick: int)
    ensures SnapshotError(bids, asks, tick).None? <==>
      && |bids| <= MAX_LEVELS_PER_SIDE && |asks| <= MAX_LEVELS_PER_SIDE
      && ValidLevels(bids, tick) && ValidLevels(asks, tick)
      && DistinctPrices(bids) && DistinctPrices(asks)
      && (forall b, a | b in bids && a in asks :: b.price < a.price)
  {
    SideErrorMeaning(bids, {}, tick, "duplicate_bid_price");
    SideErrorMeaning(asks, {}, tick, "duplicate_ask_price");
    if DistinctPrices(bids) && DistinctPrices(asks) {
      ExtremeIsTop(bids, true);
      ExtremeIsTop(asks, false);
      ExtremeListed(bids, true);
      ExtremeListed(asks, false);
    }
  }

  lemma {:induction false} ExtremeListed(levels: seq<Level>, desc: bool)
    ensures Extreme(levels, desc).None? <==> levels == []
    ensures levels != [] ==> exists l :: l in levels && l.price == Extreme(levels, desc).value
    ensures forall l | l in levels :: l.price == Extreme(levels, desc).value || Before(desc, Extreme(levels, desc).value, l.price)
  {
    if levels != [] {
      ExtremeListed(levels[1..], desc);
      assert levels == [levels[0]] + levels[1..];
      assert levels[0] in levels;
    }
  }

  lemma {:induction false} DeltaErrorMeaning(changes: seq<PriceChange>, tick: int)
    requires DeltaError(changes, tick).None?
    ensures forall c | c in changes :: tick > 0 && 0 < c.price < SCALE && c.size >= 0 && IsAlignedToTick(c.price, tick)
  {
    if changes != [] {
      DeltaErrorMeaning(changes[1..], tick);
      assert changes == [changes[0]] + changes[1..];
    }
  }

  // ----- Level edits -----

  /** Re-sorting a sorted side changes nothing. */
  lemma SortedStays(levels: seq<Level>, desc: bool)
    requires StrictlySorted(levels, desc)
    ensures Sorted(levels, desc) == levels
  {
    StrictlySortedDistinct(levels, desc);
    SortedMap(levels, desc);
    ListingUnique(Sorted(levels, desc), levels, desc);
  }

  lemma SideChanged(levels: seq<Level>, price: int, size: int, desc: bool, tick: int)
    requires GoodSide(levels, desc) && 0 < price < SCALE && size >= 0
    ensures var s := Sorted(Upsert(levels, price, size), desc);
      && GoodSide(s, desc) && MapOf(s) == ChangedMap(MapOf(levels), price, size)
      && (Aligned(levels, tick) && IsAlignedToTick(price, tick) ==> Aligned(s, tick))
  {
    StrictlySortedDistinct(levels, desc);
    UpsertMap(levels, price, size);
    SortedFacts(Upsert(levels, price, size), desc);
    SortedMap(Upsert(levels, price, size), desc);
  }

  lemma LevelChanged(b: BookState, c: PriceChange)
    requires WellFormed(b) && 0 < c.price < SCALE && c.size >= 0
    ensures var d := ChangeLevel(b, c.side, c.price, c.size);
      && WellFormed(d) && Abstract(d) == MapChange(Abstract(b), c)
      && (Aligned(b.bids, b.tickSize) && Aligned(b.asks, b.tickSize) && IsAlignedToTick(c.price, b.tickSize) ==>
          Aligned(d.bids, d.tickSize) && Aligned(d.asks, d.tickSize))
  {
    if c.side.Buy? {
      SideChanged(b.bids, c.price, c.size, true, b.tickSize);
      SortedStays(b.asks, false);
    } else {
      SideChanged(b.asks, c.price, c.size, false, b.tickSize);
      SortedStays(b.bids, true);
    }
  }

  lemma {:induction false} LevelsChanged(b: BookState, changes: seq<PriceChange>)
    requires WellFormed(b) && Aligned(b.bids, b.tickSize) && Aligned(b.asks, b.tickSize)
    requires forall c | c in changes :: 0 < c.price < SCALE && c.size >= 0 && IsAlignedToTick(c.price, b.tickSize)
    ensures var d := ChangeLevels(b, changes);
      && WellFormed(d) && Abstract(d) == MapChanges(Abstract(b), changes)
      && Aligned(d.bids, d.tickSize) && Aligned(d.asks, d.tickSize)
      && d == b.(bids := d.bids, asks := d.asks, bestBid := d.bestBid, bestAsk := d.bestAsk)
    decreases |changes|
  {
    if changes != [] {
      var c := changes[0];
      LevelChanged(b, c);
      LevelsChanged(ChangeLevel(b, c.side, c.price, c.size), changes[1..]);
    }
  }

  lemma BestAreTops(b: BookState)
    requires WellFormed(b)
    ensures b.bestBid == BestBid(Abstract(b)) && b.bestAsk == BestAsk(Abstract(b))
  {
    HeadIsTop(b.bids, true);
    HeadIsTop(b.asks, false);
  }

  // ----- One event refines the map and keeps the invariant -----

  lemma AfterDeltaRefines(b: BookState, timestamp: nat, now: nat, matching: seq<PriceChange>)
    requires Inv(b) && b.tradeable && matching != [] && DeltaError(matching, b.tickSize).None?
    requires HasText(matching[|matching| - 1].hash)
    ensures var (b', r) := AfterDelta(b, timestamp, now, matching);
      Inv(b') && (Abstract(b'), r) == MapAfterDelta(Abstract(b), timestamp, now, matching)
  {
    DeltaErrorMeaning(matching, b.tickSize);
    LevelsChanged(b, matching);
    BestAreTops(ChangeLevels(b, matching));
  }

  lemma DeltaRefines(b: BookState, timestamp: nat, changes: seq<PriceChange>, now: nat)
    requires Inv(b)
    ensures var (b', r) := ApplyDelta(b, timestamp, changes, now);
      Inv(b') && (Abstract(b'), r) == MapDelta(Abstract(b), timestamp, changes, now)
  {
    var matching := Matching(changes, b.assetId);
    if matching != [] && b.tradeable && DeltaError(matching, b.tickSize).None? && HasText(matching[|matching| - 1].hash) {
      AfterDeltaRefines(b, timestamp, now, matching);
    }
  }

  lemma SortedNonEmpty(levels: seq<Level>, desc: bool)
    requires DistinctPrices(levels)
    ensures Sorted(levels, desc) == [] <==> levels == []
  {
    SortedFacts(levels, desc);
    assert levels != [] ==> levels[0] in Sorted(levels, desc);
    assert Sorted(levels, desc) != [] ==> Sorted(levels, desc)[0] in levels;
  }

  /** A side of an accepted snapshot, as the book stores it. */
  lemma StoredSide(levels: seq<Level>, desc: bool, tick: int)
    requires ValidLevels(levels, tick) && DistinctPrices(levels)
    ensures var sorted := Sorted(levels, desc);
      && StrictlySorted(sorted, desc) && ValidLevels(sorted, tick) && MapOf(sorted) == MapOf(levels)
      && (sorted == [] <==> levels == []) && (sorted != [] ==> sorted[0] in levels)
  {
    SortedFacts(levels, desc);
    SortedMap(levels, desc);
    SortedNonEmpty(levels, desc);
  }

  lemma AdoptedRefines(b: BookState, timestamp: nat, hash: Option<string>, bids: seq<Level>, asks: seq<Level>, now: nat)
    requires Inv(b) && HasText(hash) && SnapshotError(bids, asks, b.tickSize).None?
    ensures var d := Adopted(b, timestamp, hash, bids, asks, now);
      Inv(d) && Abstract(d).bids == MapOf(bids) && Abstract(d).asks == MapOf(asks)
      && (d.tradeable <==> bids != [] && asks != [])
  {
    SnapshotAccepted(bids, asks, b.tickSize);
    StoredSide(bids, true, b.tickSize);
    StoredSide(asks, false, b.tickSize);
  }

  lemma SnapshotRefines(b: BookState, timestamp: nat, hash: Option<string>, bids: seq<Level>, asks: seq<Level>, now: nat)
    requires Inv(b)
    ensures var (b', r) := ApplySnapshot(b, timestamp, hash, bids, asks, now);
      Inv(b') && (Abstract(b'), r) == MapSnapshot(Abstract(b), timestamp, hash, bids, asks, now)
  {
    if SnapshotError(bids, asks, b.tickSize).None? && HasText(hash) {
      AdoptedRefines(b, timestamp, hash, bids, asks, now);
    }
  }

  lemma TickRefines(b: BookState, timestamp: nat, oldTick: int, newTick: int, now: nat)
    requires Inv(b)
    ensures var (b', r) := ApplyTickSizeChange(b, timestamp, oldTick, newTick, now);
      Inv(b') && (Abstract(b'), r) == MapTick(Abstract(b), timestamp, oldTick, newTick, now)
  {
  }

  /** Nothing but the levels, the tick, the hash and the flag matters to the invariant. */
  lemma SameSidesKeepInv(b: BookState, d: BookState)
    requires Inv(b) && d.bids == b.bids && d.asks == b.asks && d.bestBid == b.bestBid && d.bestAsk == b.bestAsk
    requires d.hash == b.hash && d.tickSize == b.tickSize && (d.tradeable ==> b.tradeable)
    ensures Inv(d)
  {
  }

  lemma TopMatches(b: BookState, timestamp: nat, bid: int, ask: int, now: nat)
    requires WellFormed(b)
    ensures var (b', r) := ApplyBestBidAsk(b, timestamp, bid, ask, now);
      (Abstract(b'), r) == MapTop(Abstract(b), timestamp, bid, ask, now)
  {
    hide WellFormed, MapOf, Top, HasText;
    BestAreTops(b);
    var (b', r) := ApplyBestBidAsk(b, timestamp, bid, ask, now);
    assert b'.bids == b.bids && b'.asks == b.asks;
  }

  lemma TopFrame(b: BookState, timestamp: nat, bid: int, ask: int, now: nat)
    ensures var d := ApplyBestBidAsk(b, timestamp, bid, ask, now).0;
      d == b.(tradeable := d.tradeable) && (d.tradeable ==> b.tradeable)
  {
  }

  lemma TopKeepsInv(b: BookState, timestamp: nat, bid: int, ask: int, now: nat)
    requires Inv(b)
    ensures Inv(ApplyBestBidAsk(b, timestamp, bid, ask, now).0)
  {
    hide Inv, ApplyBestBidAsk;
    TopFrame(b, timestamp, bid, ask, now);
    SameSidesKeepInv(b, ApplyBestBidAsk(b, timestamp, bid, ask, now).0);
  }

  lemma TradeMatches(b: BookState, timestamp: nat, price: int, size: Option<int>, now: nat)
    ensures var (b', r) := ApplyLastTrade(b, timestamp, price, size, now);
      (Abstract(b'), r) == MapTrade(Abstract(b), timestamp, price, size, now)
  {
    var (b', r) := ApplyLastTrade(b, timestamp, price, size, now);
    assert b'.bids == b.bids && b'.asks == b.asks;
  }

  lemma TradeFrame(b: BookState, timestamp: nat, price: int, size: Option<int>, now: nat)
    ensures var d := ApplyLastTrade(b, timestamp, price, size, now).0;
      && d == b.(lastTradePrice := d.lastTradePrice, lastTradeTimestamp := d.lastTradeTimestamp, tradeable := d.tradeable)
      && (d.tradeable ==> b.tradeable)
  {
  }

  lemma TradeKeepsInv(b: BookState, timestamp: nat, price: int, size: Option<int>, now: nat)
    requires Inv(b)
    ensures Inv(ApplyLastTrade(b, timestamp, price, size, now).0)
  {
    hide Inv, ApplyLastTrade;
    TradeFrame(b, timestamp, price, size, now);
    SameSidesKeepInv(b, ApplyLastTrade(b, timestamp, price, size, now).0);
  }

  /** Main step: the list book and the map book accept the same events, with the same outcome and the same contents. */
  lemma EventRefines(b: BookState, e: MarketEvent, now: nat)
    requires Inv(b)
    ensures var (b', r) := ApplyEvent(b, e, now);
      Inv(b') && (Abstract(b'), r) == MapEvent(Abstract(b), e, now)
  {
    match e {
      case BookSnapshot(_, timestamp, hash, bids, asks) =>
        SnapshotRefines(b, timestamp, hash, bids, asks, now);
      case PriceChanges(timestamp, changes) =>
        DeltaRefines(b, timestamp, changes, now);
      case TickSizeChange(_, timestamp, oldTick, newTick) =>
        TickRefines(b, timestamp, oldTick, newTick, now);
      case BestBidAsk(_, timestamp, bid, ask) =>
        TopMatches(b, timestamp, bid, ask, now);
        TopKeepsInv(b, timestamp, bid, ask, now);
      case LastTradePrice(_, timestamp, price, size, _) =>
        TradeMatches(b, timestamp, price, size, now);
        TradeKeepsInv(b, timestamp, price, size, now);
      case MarketResolved(_) =>
      case NewMarket(_) =>
    }
  }

  // ----- Runs -----

  /** Feed inputs: an event, a dropped connection, or reinstalled market parameters. */
  datatype Feed =
    | Event(e: MarketEvent, now: nat)
    | Disconnected
    | Installed(tickSize: int, minOrderSize: int)

  function FeedStep(b: BookState, f: Feed): BookState {
    match f
    case Event(e, now) => ApplyEvent(b, e, now).0
    case Disconnected => b.(tradeable := false)
    case Installed(tick, minimum) =>
      if b.tickSize != tick || b.minOrderSize != minimum then
        b.(tickSize := tick, minOrderSize := minimum, tradeable := false)
      else b
  }

  ghost function MapFeedStep(m: MapBook, f: Feed): MapBook {
    match f
    case Event(e, now) => MapEvent(m, e, now).0
    case Disconnected => m.(tradeable := false)
    case Installed(tick, minimum) =>
      if m.tickSize != tick || m.minOrderSize != minimum then
        m.(tickSize := tick, minOrderSize := minimum, tradeable := false)
      else m
  }

  function Run(b: BookState, feed: seq<Feed>): BookState
    decreases |feed|
  {
    if feed == [] then b else Run(FeedStep(b, feed[0]), feed[1..])
  }

  ghost function MapRun(m: MapBook, feed: seq<Feed>): MapBook
    decreases |feed|
  {
    if feed == [] then m else MapRun(MapFeedStep(m, feed[0]), feed[1..])
  }

  lemma {:induction false} RunRefines(b: BookState, feed: seq<Feed>)
    requires Inv(b)
    ensures Inv(Run(b, feed)) && Abstract(Run(b, feed)) == MapRun(Abstract(b), feed)
    decreases |feed|
  {
    if feed != [] {
      if feed[0].Event? {
        EventRefines(b, feed[0].e, feed[0].now);
      }
      RunRefines(FeedStep(b, feed[0]), feed[1..]);
    }
  }

  /**
   * After any feed from an empty book, the bid and ask lists are the one descending and the one
   * ascending listing of the maps obtained by replaying the feed, and the invariant holds.
   */
  lemma ListsAreListings(assetId: string, tick: int, minimum: int, feed: seq<Feed>, bids: seq<Level>, asks: seq<Level>)
    ensures var b := Run(EmptyBook(assetId, tick, minimum), feed);
      var m := MapRun(Abstract(EmptyBook(assetId, tick, minimum)), feed);
      && Inv(b)
      && (b.bids == bids <==> StrictlySorted(bids, true) && MapOf(bids) == m.bids)
      && (b.asks == asks <==> StrictlySorted(asks, false) && MapOf(asks) == m.asks)
  {
    var start := EmptyBook(assetId, tick, minimum);
    RunRefines(start, feed);
    var b := Run(start, feed);
    if StrictlySorted(bids, true) && MapOf(bids) == MapOf(b.bids) {
      ListingUnique(b.bids, bids, true);
    }
    if StrictlySorted(asks, false) && MapOf(asks) == MapOf(b.asks) {
      ListingUnique(b.asks, asks, false);
    }
  }

  /** The order in which a snapshot lists its levels does not matter. */
  lemma SnapshotOrderIrrelevant(b: BookState, timestamp: nat, hash: Option<string>, now: nat,
                                bids: seq<Level>, asks: seq<Level>, bids': seq<Level>, asks': seq<Level>)
    requires multiset(bids) == multiset(bids') && multiset(asks) == multiset(asks')
    requires ApplySnapshot(b, timestamp, hash, bids, asks, now).1.Ok?
    ensures ApplySnapshot(b, timestamp, hash, bids', asks', now) == ApplySnapshot(b, timestamp, hash, bids, asks, now)
  {
    SnapshotAccepted(bids, asks, b.tickSize);
    SamePermuted(bids, bids', true);
    SamePermuted(asks, asks', false);
    SameLength(bids, bids');
    SameLength(asks, asks');
    assert forall l :: l in bids' <==> l in bids by {
      assert forall l :: l in bids' <==> l in multiset(bids');
      assert forall l :: l in bids <==> l in multiset(bids);
    }
    assert forall l :: l in asks' <==> l in asks by {
      assert forall l :: l in asks' <==> l in multiset(asks');
      assert forall l :: l in asks <==> l in multiset(asks);
    }
    SnapshotAccepted(bids', asks', b.tickSize);
  }

  lemma SameLength(a: seq<Level>, b: seq<Level>)
    requires multiset(a) == multiset(b)
    ensures |a| == |b|
  {
    assert |multiset(a)| == |a| && |multiset(b)| == |b|;
  }

  lemma SamePermuted(a: seq<Level>, b: seq<Level>, desc: bool)
    requires DistinctPrices(a) && multiset(a) == multiset(b)
    ensures DistinctPrices(b) && Sorted(a, desc) == Sorted(b, desc)
  {
    assert forall l :: l in b <==> l in multiset(b);
    assert forall l :: l in a <==> l in multiset(a);
    forall i, j | 0 <= i < j < |b| ensures b[i].price != b[j].price {
      if b[i].price == b[j].price {
        assert b[i] == b[j] by {
          assert b[i] in a && b[j] in a;
        }
        TwiceListed(b, i, j);
        OnceListed(a, b[i]);
        assert false;
      }
    }
    SortedMap(a, desc);
    SortedMap(b, desc);
    forall p, s ensures (p in MapOf(a) && MapOf(a)[p] == s) <==> Level(p, s) in b {
      MapOfMember(a, p, s);
    }
    MapByMembers(b, MapOf(a));
    ListingUnique(Sorted(a, desc), Sorted(b, desc), desc);
  }

  lemma TwiceListed(b: seq<Level>, i: nat, j: nat)
    requires i < j < |b| && b[i] == b[j]
    ensures multiset(b)[b[i]] >= 2
  {
    assert b == b[..i] + [b[i]] + b[i + 1..j] + [b[j]] + b[j + 1..];
  }

  lemma {:induction false} OnceListed(a: seq<Level>, l: Level)
    requires DistinctPrices(a)
    ensures multiset(a)[l] <= 1
  {
    if a != [] {
      OnceListed(a[1..], l);
      assert a == [a[0]] + a[1..];
      if a[0] == l {
        assert l !in a[1..];
      }
    }
  }

  ghost predicate Monotone(b: BookState, after: BookState, r: Result<()>) {
    && after.exchangeTimestamp >= b.exchangeTimestamp
    && after.assetId == b.assetId
    && (r.Err? ==> !after.tradeable)
  }

  lemma AfterDeltaMonotone(b: BookState, timestamp: nat, now: nat, matching: seq<PriceChange>)
    requires timestamp >= b.exchangeTimestamp && matching != [] && HasText(matching[|matching| - 1].hash) && b.tradeable
    ensures var (b', r) := AfterDelta(b, timestamp, now, matching);
      Monotone(b, b', r) && (b'.tradeable ==> b.tradeable)
  {
    ChangeLevelsFrame(b, matching);
  }

  lemma DeltaMonotone(b: BookState, timestamp: nat, changes: seq<PriceChange>, now: nat)
    ensures var (b', r) := ApplyDelta(b, timestamp, changes, now);
      Monotone(b, b', r) && (b'.tradeable ==> b.tradeable)
  {
    var matching := Matching(changes, b.assetId);
    if matching != [] && b.tradeable && TimingError(timestamp, now, b.exchangeTimestamp).None? && HasText(matching[|matching| - 1].hash) {
      AfterDeltaMonotone(b, timestamp, now, matching);
    }
  }

  lemma SnapshotMonotone(b: BookState, timestamp: nat, hash: Option<string>, bids: seq<Level>, asks: seq<Level>, now: nat)
    ensures var (b', r) := ApplySnapshot(b, timestamp, hash, bids, asks, now);
      Monotone(b, b', r)
  {
  }

  lemma OthersMonotone(b: BookState, e: MarketEvent, now: nat)
    requires !e.PriceChanges? && !e.BookSnapshot?
    ensures var (b', r) := ApplyEvent(b, e, now);
      Monotone(b, b', r) && (b'.tradeable ==> b.tradeable)
  {
  }

  /** The exchange timestamp never decreases, and only an accepted snapshot of this asset turns trading back on. */
  lemma StepMonotone(b: BookState, f: Feed)
    ensures FeedStep(b, f).exchangeTimestamp >= b.exchangeTimestamp
    ensures !b.tradeable && FeedStep(b, f).tradeable ==>
      f.Event? && f.e.BookSnapshot? && f.e.assetId == b.assetId && ApplyEvent(b, f.e, f.now).1.Ok?
    ensures f.Event? && ApplyEvent(b, f.e, f.now).1.Err? ==> !FeedStep(b, f).tradeable
    ensures FeedStep(b, f).assetId == b.assetId
  {
    match f {
      case Event(PriceChanges(timestamp, changes), now) =>
        DeltaMonotone(b, timestamp, changes, now);
      case Event(BookSnapshot(_, timestamp, hash, bids, asks), now) =>
        SnapshotMonotone(b, timestamp, hash, bids, asks, now);
      case Event(e, now) =>
        OthersMonotone(b, e, now);
      case _ =>
    }
  }

  lemma {:induction false} ChangeLevelsFrame(b: BookState, changes: seq<PriceChange>)
    ensures var d := ChangeLevels(b, changes);
      d == b.(bids := d.bids, asks := d.asks, bestBid := d.bestBid, bestAsk := d.bestAsk)
    decreases |changes|
  {
    if changes != [] {
      ChangeLevelsFrame(ChangeLevel(b, changes[0].side, changes[0].price, changes[0].size), changes[1..]);
    }
  }

  lemma {:induction false} RunMonotone(b: BookState, feed: seq<Feed>)
    ensures Run(b, feed).exchangeTimestamp >= b.exchangeTimestamp
    ensures !b.tradeable && Run(b, feed).tradeable ==>
      exists i | 0 <= i < |feed| :: feed[i].Event? && feed[i].e.BookSnapshot? && feed[i].e.assetId == b.assetId
    decreases |feed|
  {
    if feed != [] {
      StepMonotone(b, feed[0]);
      RunMonotone(FeedStep(b, feed[0]), feed[1..]);
      assert forall i | 0 <= i < |feed[1..]| :: feed[1..][i] == feed[i + 1];
    }
  }

  // ----- Which sides a delta leaves -----

  /** The size at a price of one side when the last change there wins, and the old size stays where there is none. */
  function LastSize(before: int, changes: seq<PriceChange>, side: Side, price: int): int {
    if changes == [] then before
    else
      var last := changes[|changes| - 1];
      if last.side == side && last.price == price then last.size else LastSize(before, changes[..|changes| - 1], side, price)
  }

  function SizeIn(m: map<int, int>, price: int): int {
    if price in m then m[price] else 0
  }

  function SideOf(m: MapBook, side: Side): map<int, int> {
    if side.Buy? then m.bids else m.asks
  }

  lemma {:induction false} LastChange(m: MapBook, changes: seq<PriceChange>)
    requires changes != []
    ensures MapChanges(m, changes) == MapChange(MapChanges(m, changes[..|changes| - 1]), changes[|changes| - 1])
    decreases |changes|
  {
    if |changes| == 1 {
      assert changes[1..] == [] && changes[..0] == [];
    } else {
      LastChange(MapChange(m, changes[0]), changes[1..]);
      assert changes[..|changes| - 1][1..] == changes[1..][..|changes| - 2];
    }
  }

  /** A map that lists no zero size lists, after the changes, exactly the last sizes that are not zero. */
  lemma {:induction false} ChangesLeave(m: MapBook, changes: seq<PriceChange>, side: Side, price: int)
    requires forall p | p in SideOf(m, side) :: SideOf(m, side)[p] != 0
    ensures var after := SideOf(MapChanges(m, changes), side);
      && SizeIn(after, price) == LastSize(SizeIn(SideOf(m, side), price), changes, side, price)
      && forall p | p in after :: after[p] != 0
    decreases |changes|
  {
    if changes != [] {
      ChangesLeave(m, changes[..|changes| - 1], side, price);
      LastChange(m, changes);
    }
  }

  lemma ListedSizes(levels: seq<Level>, desc: bool)
    requires GoodSide(levels, desc)
    ensures forall p | p in MapOf(levels) :: MapOf(levels)[p] != 0
    ensures levels != [] <==> exists p :: SizeIn(MapOf(levels), p) != 0
  {
    StrictlySortedDistinct(levels, desc);
    forall p | p in MapOf(levels) ensures MapOf(levels)[p] != 0 {
      MapOfMember(levels, p, MapOf(levels)[p]);
    }
    if levels != [] {
      MapOfKey(levels, levels[0].price);
      assert SizeIn(MapOf(levels), levels[0].price) != 0;
    }
  }

  /** One side of the book after the changes of an accepted delta. */
  lemma SideLeft(b: BookState, d: BookState, changes: seq<PriceChange>, side: Side)
    requires WellFormed(b) && WellFormed(d) && SideOf(Abstract(d), side) == SideOf(MapChanges(Abstract(b), changes), side)
    ensures (if side.Buy? then d.bestBid else d.bestAsk).Some? <==>
      exists p :: LastSize(SizeIn(SideOf(Abstract(b), side), p), changes, side, p) != 0
  {
    var levels := if side.Buy? then d.bids else d.asks;
    ListedSizes(if side.Buy? then b.bids else b.asks, side.Buy?);
    ListedSizes(levels, side.Buy?);
    forall p ensures SizeIn(MapOf(levels), p) == LastSize(SizeIn(SideOf(Abstract(b), side), p), changes, side, p) {
      ChangesLeave(Abstract(b), changes, side, p);
    }
  }

  lemma AcceptedDelta(b: BookState, timestamp: nat, changes: seq<PriceChange>, now: nat)
    requires Inv(b) && ApplyDelta(b, timestamp, changes, now).1.Ok? && Matching(changes, b.assetId) != []
    ensures var d := ApplyDelta(b, timestamp, changes, now).0;
      var changed := MapChanges(Abstract(b), Matching(changes, b.assetId));
      && WellFormed(b) && WellFormed(d) && d.tradeable && Abstract(d).bids == changed.bids && Abstract(d).asks == changed.asks
  {
    hide ApplyDelta, MapChanges, MapOf, DeltaError, Matching, BestBid, BestAsk;
    DeltaRefines(b, timestamp, changes, now);
    ChangesFrame(Abstract(b), Matching(changes, b.assetId));
  }

  lemma {:induction false} ChangesFrame(m: MapBook, changes: seq<PriceChange>)
    ensures var d := MapChanges(m, changes);
      d == m.(bids := d.bids, asks := d.asks)
    decreases |changes|
  {
    if changes != [] {
      ChangesFrame(MapChange(m, changes[0]), changes[1..]);
    }
  }

  /** When an accepted delta keeps a side: exactly when some price of it keeps a size once the last change at each price is taken. */
  lemma DeltaSides(b: BookState, timestamp: nat, changes: seq<PriceChange>, now: nat)
    requires Inv(b) && ApplyDelta(b, timestamp, changes, now).1.Ok? && Matching(changes, b.assetId) != []
    ensures var d := ApplyDelta(b, timestamp, changes, now).0;
      var matching := Matching(changes, b.assetId);
      && d.tradeable
      && (d.bestBid.Some? <==> exists p :: LastSize(SizeIn(MapOf(b.bids), p), matching, Buy, p) != 0)
      && (d.bestAsk.Some? <==> exists p :: LastSize(SizeIn(MapOf(b.asks), p), matching, Sell, p) != 0)
  {
    hide Inv, WellFormed, ApplyDelta, MapChanges, MapOf, LastSize, SizeIn;
    var d := ApplyDelta(b, timestamp, changes, now).0;
    var matching := Matching(changes, b.assetId);
    AcceptedDelta(b, timestamp, changes, now);
    assert SideOf(Abstract(b), Buy) == MapOf(b.bids) && SideOf(Abstract(b), Sell) == MapOf(b.asks);
    SideLeft(b, d, matching, Buy);
    SideLeft(b, d, matching, Sell);
  }

  /** A delta may empty one side and leave the book tradeable: only a crossed top is refused after a delta. */
  lemma TradeableWithOneSide()
    ensures var b := Run(EmptyBook("a", 10_000, SCALE), [
        Event(BookSnapshot("a", 1, Some("h"), [Level(490_000, 1)], [Level(510_000, 1)]), 1),
        Event(PriceChanges(2, [PriceChange("a", 490_000, 0, Buy, None, None, Some("i"))]), 2)]);
      b.tradeable && b.bestBid.None? && b.bestAsk == Some(510_000)
  {
    var start := EmptyBook("a", 10_000, SCALE);
    var e1 := BookSnapshot("a", 1, Some("h"), [Level(490_000, 1)], [Level(510_000, 1)]);
    var change := PriceChange("a", 490_000, 0, Buy, None, None, Some("i"));
    var e2 := PriceChanges(2, [change]);
    var bids, asks := [Level(490_000, 1)], [Level(510_000, 1)];
    SnapshotAccepted(bids, asks, 10_000);
    assert bids[1..] == [] && asks[1..] == [];
    assert Sorted(bids, true) == bids && Sorted(asks, false) == asks;
    var b1 := ApplyEvent(start, e1, 1).0;
    assert b1.tradeable && b1.bids == bids && b1.asks == asks;
    assert [change][1..] == [];
    assert Matching([change], "a") == [change];
    assert DeltaError([change], 10_000).None?;
    assert Without(bids, 490_000) == [];
    var b2 := ApplyEvent(b1, e2, 2).0;
    assert ChangeLevels(b1, [change]) == ChangeLevel(b1, Buy, 490_000, 0);
    assert b2.tradeable && b2.bestBid.None?;
    var feed := [Event(e1, 1), Event(e2, 2)];
    assert feed[1..] == [Event(e2, 2)] && feed[1..][1..] == [];
    assert Run(start, feed) == Run(b1, feed[1..]) == b2;
  }
}
