/** Market events applied to one asset's book: snapshots, deltas, tick changes, and the invalidate/repair switch. */
module MarketEvents {
  import opened Prelude
  import opened FixedPoint
  import opened Book

  const MAX_LEVELS_PER_SIDE := 20_000

  datatype PriceChange = PriceChange(
    assetId: string, price: int, size: int, side: Side,
    bestBid: Option<int>, bestAsk: Option<int>, hash: Option<string>)

  datatype MarketEvent =
    | BookSnapshot(assetId: string, timestamp: nat, hash: Option<string>, bids: seq<Level>, asks: seq<Level>)
    | PriceChanges(timestamp: nat, changes: seq<PriceChange>)
    | TickSizeChange(assetId: string, timestamp: nat, oldTick: int, newTick: int)
    | LastTradePrice(assetId: string, timestamp: nat, price: int, size: Option<int>, side: Option<Side>)
    | BestBidAsk(assetId: string, timestamp: nat, bestBid: int, bestAsk: int)
    | NewMarket(assetIds: seq<string>)
    | MarketResolved(assetIds: seq<string>)

  datatype BookState = BookState(
    assetId: string, bids: seq<Level>, asks: seq<Level>, bestBid: Option<int>, bestAsk: Option<int>,
    lastTradePrice: Option<int>, lastTradeTimestamp: Option<nat>, tickSize: int, minOrderSize: int,
    hash: Option<string>, exchangeTimestamp: nat, receivedAt: nat, tradeable: bool)

  function EmptyBook(assetId: string, tickSize: int, minOrderSize: int): BookState {
    BookState(assetId, [], [], None, None, None, None, tickSize, minOrderSize, None, 0, 0, false)
  }

  predicate HasText(hash: Option<string>) {
    hash.Some? && hash.value != ""
  }

  // ----- Validators -----

  function LevelError(price: int, size: int, tick: int, allowZeroSize: bool): Option<string> {
    if tick <= 0 then Some("tick_size_must_be_positive")
    else if price <= 0 || price >= SCALE then Some("book_price_out_of_range")
    else if !IsAlignedToTick(price, tick) then Some("book_price_not_tick_aligned")
    else if size < 0 || (!allowZeroSize && size == 0) then Some("book_size_must_be_positive")
    else None
  }

  function SideError(levels: seq<Level>, seen: set<int>, tick: int, duplicate: string): Option<string> {
    if levels == [] then None
    else
      var error := LevelError(levels[0].price, levels[0].size, tick, false);
      if error.Some? then error
      else if levels[0].price in seen then Some(duplicate)
      else SideError(levels[1..], seen + {levels[0].price}, tick, duplicate)
  }

  /** Highest price when `desc`, lowest otherwise. */
  function Extreme(levels: seq<Level>, desc: bool): Option<int> {
    if levels == [] then None
    else
      var rest := Extreme(levels[1..], desc);
      if rest.None? || Before(desc, levels[0].price, rest.value) then Some(levels[0].price) else rest
  }

  predicate CrossedOrLocked(bid: Option<int>, ask: Option<int>) {
    bid.Some? && ask.Some? && bid.value >= ask.value
  }

  function SnapshotError(bids: seq<Level>, asks: seq<Level>, tick: int): Option<string> {
    if |bids| > MAX_LEVELS_PER_SIDE || |asks| > MAX_LEVELS_PER_SIDE then Some("book_level_limit_exceeded")
    else
      var bidError := SideError(bids, {}, tick, "duplicate_bid_price");
      if bidError.Some? then bidError
      else
        var askError := SideError(asks, {}, tick, "duplicate_ask_price");
        if askError.Some? then askError
        else if CrossedOrLocked(Extreme(bids, true), Extreme(asks, false)) then Some("crossed_or_locked_book_snapshot")
        else None
  }

  method ValidateSide(levels: seq<Level>, tick: int, duplicate: string) returns (error: Option<string>)
    ensures error == SideError(levels, {}, tick, duplicate)
  {
    var seen: set<int> := {};
    assert levels[0..] == levels;
    for i := 0 to |levels|
      invariant SideError(levels, {}, tick, duplicate) == SideError(levels[i..], seen, tick, duplicate)
    {
      assert levels[i..][1..] == levels[i + 1..];
      error := LevelError(levels[i].price, levels[i].size, tick, false);
      if error.Some? {
        return;
      }
      if levels[i].price in seen {
        return Some(duplicate);
      }
      seen := seen + {levels[i].price};
    }
    return None;
  }

  function TimestampError(timestamp: nat, now: nat): Option<string> {
    if timestamp > now then Some("market_event_timestamp_after_receipt") else None
  }

  function OrderError(timestamp: nat, bookTimestamp: nat): Option<string> {
    if bookTimestamp > 0 && timestamp < bookTimestamp then Some("out_of_order_market_event") else None
  }

  /** The two timing checks every authoritative event passes, in order. */
  function TimingError(timestamp: nat, now: nat, bookTimestamp: nat): Option<string> {
    var late := TimestampError(timestamp, now);
    if late.Some? then late else OrderError(timestamp, bookTimestamp)
  }

  function Matching(changes: seq<PriceChange>, assetId: string): seq<PriceChange> {
    if changes == [] then []
    else (if changes[0].assetId == assetId then [changes[0]] else []) + Matching(changes[1..], assetId)
  }

  function DeltaError(changes: seq<PriceChange>, tick: int): Option<string> {
    if changes == [] then None
    else
      var error := LevelError(changes[0].price, changes[0].size, tick, true);
      if error.Some? then error else DeltaError(changes[1..], tick)
  }

  // ----- Level edits -----

  function Refreshed(b: BookState): BookState {
    var bids, asks := Sorted(b.bids, true), Sorted(b.asks, false);
    b.(bids := bids, asks := asks, bestBid := Head(bids), bestAsk := Head(asks))
  }

  function ChangeLevel(b: BookState, side: Side, price: int, size: int): BookState {
    Refreshed(if side.Buy? then b.(bids := Upsert(b.bids, price, size)) else b.(asks := Upsert(b.asks, price, size)))
  }

  function ChangeLevels(b: BookState, changes: seq<PriceChange>): BookState
    decreases |changes|
  {
    if changes == [] then b
    else ChangeLevels(ChangeLevel(b, changes[0].side, changes[0].price, changes[0].size), changes[1..])
  }

  // ----- One event -----

  function Reject(b: BookState, error: string): (BookState, Result<()>) {
    (b.(tradeable := false), Err(error))
  }

  predicate Differs(expected: Option<int>, actual: Option<int>) {
    expected.Some? && actual != expected
  }

  function DeltaFinished(b: BookState, timestamp: nat, now: nat, last: PriceChange): (BookState, Result<()>) {
    var changed := b.(hash := last.hash);
    if Differs(last.bestBid, changed.bestBid) || Differs(last.bestAsk, changed.bestAsk) then
      Reject(changed, "book_top_diverged_after_delta")
    else
      var stamped := changed.(exchangeTimestamp := timestamp, receivedAt := now);
      if CrossedOrLocked(stamped.bestBid, stamped.bestAsk) then
        Reject(stamped, "crossed_or_locked_book_after_delta")
      else (stamped, Ok(()))
  }

  function AfterDelta(b: BookState, timestamp: nat, now: nat, matching: seq<PriceChange>): (BookState, Result<()>)
    requires matching != []
  {
    DeltaFinished(ChangeLevels(b, matching), timestamp, now, matching[|matching| - 1])
  }

  function ApplyDelta(b: BookState, timestamp: nat, changes: seq<PriceChange>, now: nat): (BookState, Result<()>) {
    var matching := Matching(changes, b.assetId);
    if matching == [] then (b, Ok(()))
    else if !b.tradeable || !HasText(b.hash) then Reject(b, "delta_without_authoritative_book")
    else
      var timing := TimingError(timestamp, now, b.exchangeTimestamp);
      if timing.Some? then Reject(b, timing.value)
      else
        var finalHash := matching[|matching| - 1].hash;
        if !HasText(finalHash) then Reject(b, "price_change_hash_missing")
        else
          var invalid := DeltaError(matching, b.tickSize);
          if invalid.Some? then Reject(b, invalid.value)
          else AfterDelta(b, timestamp, now, matching)
  }

  function Adopted(b: BookState, timestamp: nat, hash: Option<string>, bids: seq<Level>, asks: seq<Level>, now: nat): BookState {
    var adopted := Refreshed(b.(bids := bids, asks := asks, hash := hash, exchangeTimestamp := timestamp, receivedAt := now));
    adopted.(tradeable := adopted.bestBid.Some? && adopted.bestAsk.Some?)
  }

  function ApplySnapshot(b: BookState, timestamp: nat, hash: Option<string>, bids: seq<Level>, asks: seq<Level>, now: nat)
    : (BookState, Result<()>)
  {
    var timing := TimingError(timestamp, now, b.exchangeTimestamp);
    if timing.Some? then Reject(b, timing.value)
    else
      var invalid := SnapshotError(bids, asks, b.tickSize);
      if invalid.Some? then Reject(b, invalid.value)
      else if !HasText(hash) then Reject(b, "authoritative_book_hash_missing")
      else (Adopted(b, timestamp, hash, bids, asks, now), Ok(()))
  }

  function ApplyTickSizeChange(b: BookState, timestamp: nat, oldTick: int, newTick: int, now: nat): (BookState, Result<()>) {
    var timing := TimingError(timestamp, now, b.exchangeTimestamp);
    if timing.Some? then Reject(b, timing.value)
    else if newTick <= 0 || oldTick != b.tickSize then Reject(b, "tick_size_transition_invalid")
    else (b.(tickSize := newTick, exchangeTimestamp := timestamp, receivedAt := now, tradeable := false), Ok(()))
  }

  function ApplyBestBidAsk(b: BookState, timestamp: nat, bid: int, ask: int, now: nat): (BookState, Result<()>) {
    if timestamp < b.exchangeTimestamp then (b, Ok(()))
    else if timestamp > now then Reject(b, "market_event_timestamp_after_receipt")
    else if bid >= ask || !IsAlignedToTick(bid, b.tickSize) || !IsAlignedToTick(ask, b.tickSize)
      || b.bestBid != Some(bid) || b.bestAsk != Some(ask) then Reject(b, "best_bid_ask_diverged")
    else (b, Ok(()))
  }

  function ApplyLastTrade(b: BookState, timestamp: nat, price: int, size: Option<int>, now: nat): (BookState, Result<()>) {
    if timestamp < b.exchangeTimestamp then (b, Ok(()))
    else if timestamp > now then Reject(b, "market_event_timestamp_after_receipt")
    else if price <= 0 || price >= SCALE || (size.Some? && size.value <= 0) then Reject(b, "last_trade_invalid")
    else if b.lastTradeTimestamp.None? || timestamp > b.lastTradeTimestamp.value then
      (b.(lastTradePrice := Some(price), lastTradeTimestamp := Some(timestamp)), Ok(()))
    else (b, Ok(()))
  }

  /** New book and outcome of one event received at `now`. */
  function ApplyEvent(b: BookState, e: MarketEvent, now: nat): (BookState, Result<()>) {
    match e
    case BookSnapshot(asset, timestamp, hash, bids, asks) =>
      if asset == b.assetId then ApplySnapshot(b, timestamp, hash, bids, asks, now) else (b, Ok(()))
    case PriceChanges(timestamp, changes) => ApplyDelta(b, timestamp, changes, now)
    case TickSizeChange(asset, timestamp, oldTick, newTick) =>
      if asset == b.assetId then ApplyTickSizeChange(b, timestamp, oldTick, newTick, now) else (b, Ok(()))
    case BestBidAsk(asset, timestamp, bid, ask) =>
      if asset == b.assetId then ApplyBestBidAsk(b, timestamp, bid, ask, now) else (b, Ok(()))
    case LastTradePrice(asset, timestamp, price, size, _) =>
      if asset == b.assetId then ApplyLastTrade(b, timestamp, price, size, now) else (b, Ok(()))
    case MarketResolved(assets) => (if b.assetId in assets then b.(tradeable := false) else b, Ok(()))
    case NewMarket(_) => (b, Ok(()))
  }

  // ----- The mutable book -----

  class OrderBook {
    const assetId: string
    var bids: seq<Level>
    var asks: seq<Level>
    var bestBid: Option<int>
    var bestAsk: Option<int>
    var lastTradePrice: Option<int>
    var lastTradeTimestamp: Option<nat>
    var tickSize: int
    var minOrderSize: int
    var hash: Option<string>
    var exchangeTimestamp: nat
    var receivedAt: nat
    var tradeable: bool

    function View(): BookState
      reads this
    {
      BookState(assetId, bids, asks, bestBid, bestAsk, lastTradePrice, lastTradeTimestamp, tickSize,
                minOrderSize, hash, exchangeTimestamp, receivedAt, tradeable)
    }

    constructor (assetId: string, tickSize: int, minOrderSize: int)
      ensures View() == EmptyBook(assetId, tickSize, minOrderSize)
    {
      this.assetId := assetId;
      bids, asks, bestBid, bestAsk := [], [], None, None;
      lastTradePrice, lastTradeTimestamp := None, None;
      this.tickSize, this.minOrderSize := tickSize, minOrderSize;
      hash, exchangeTimestamp, receivedAt, tradeable := None, 0, 0, false;
    }

    method SortAndRefreshTop()
      modifies this
      ensures View() == Refreshed(old(View()))
    {
      bids := Sorted(bids, true);
      asks := Sorted(asks, false);
      bestBid := Head(bids);
      bestAsk := Head(asks);
    }

    method ApplyLevelChange(side: Side, price: int, size: int)
      modifies this
      ensures View() == ChangeLevel(old(View()), side, price, size)
    {
      match side {
        case Buy => bids := UpsertLevel(bids, price, size);
        case Sell => asks := UpsertLevel(asks, price, size);
      }
      SortAndRefreshTop();
    }

    method InvalidateOnError(error: Option<string>) returns (r: Result<()>)
      modifies this
      ensures r == if error.Some? then Err(error.value) else Ok(())
      ensures View() == if error.Some? then old(View()).(tradeable := false) else old(View())
    {
      if error.Some? {
        tradeable := false;
        return Err(error.value);
      }
      return Ok(());
    }

    method ApplyBook(timestamp: nat, newHash: Option<string>, newBids: seq<Level>, newAsks: seq<Level>, now: nat)
      returns (r: Result<()>)
      modifies this
      ensures (View(), r) == ApplySnapshot(old(View()), timestamp, newHash, newBids, newAsks, now)
    {
      r := InvalidateOnError(TimestampError(timestamp, now));
      if r.Err? { return; }
      r := InvalidateOnError(OrderError(timestamp, exchangeTimestamp));
      if r.Err? { return; }
      var invalid := ValidateSnapshotLevels(newBids, newAsks, tickSize);
      r := InvalidateOnError(invalid);
      if r.Err? { return; }
      if !HasText(newHash) {
        tradeable := false;
        return Err("authoritative_book_hash_missing");
      }
      AdoptSnapshot(timestamp, newHash, newBids, newAsks, now);
    }

    method AdoptSnapshot(timestamp: nat, newHash: Option<string>, newBids: seq<Level>, newAsks: seq<Level>, now: nat)
      modifies this
      ensures View() == Adopted(old(View()), timestamp, newHash, newBids, newAsks, now)
    {
      bids := newBids;
      asks := newAsks;
      hash := newHash;
      exchangeTimestamp := timestamp;
      receivedAt := now;
      SortAndRefreshTop();
      tradeable := bestBid.Some? && bestAsk.Some?;
    }

    method ApplyLevelChanges(matching: seq<PriceChange>)
      modifies this
      ensures View() == ChangeLevels(old(View()), matching)
    {
      assert matching[0..] == matching;
      for i := 0 to |matching|
        invariant ChangeLevels(View(), matching[i..]) == ChangeLevels(old(View()), matching)
      {
        assert matching[i..][1..] == matching[i + 1..];
        ApplyLevelChange(matching[i].side, matching[i].price, matching[i].size);
      }
    }

    method ApplyPriceChanges(timestamp: nat, changes: seq<PriceChange>, now: nat) returns (r: Result<()>)
      modifies this
      ensures (View(), r) == ApplyDelta(old(View()), timestamp, changes, now)
    {
      var matching := Matching(changes, assetId);
      if matching == [] {
        return Ok(());
      }
      if !tradeable || !HasText(hash) {
        tradeable := false;
        return Err("delta_without_authoritative_book");
      }
      r := InvalidateOnError(TimestampError(timestamp, now));
      if r.Err? { return; }
      r := InvalidateOnError(OrderError(timestamp, exchangeTimestamp));
      if r.Err? { return; }
      var last := matching[|matching| - 1];
      if !HasText(last.hash) {
        tradeable := false;
        return Err("price_change_hash_missing");
      }
      var invalid := ValidateDeltaLevels(matching, tickSize);
      r := InvalidateOnError(invalid);
      if r.Err? { return; }
      ApplyLevelChanges(matching);
      r := FinishDelta(timestamp, now, last);
    }

    /** After the levels moved: adopt the hash, then check the announced top and that the book is not crossed. */
    method FinishDelta(timestamp: nat, now: nat, last: PriceChange) returns (r: Result<()>)
      modifies this
      ensures (View(), r) == DeltaFinished(old(View()), timestamp, now, last)
    {
      hash := last.hash;
      if Differs(last.bestBid, bestBid) || Differs(last.bestAsk, bestAsk) {
        tradeable := false;
        return Err("book_top_diverged_after_delta");
      }
      exchangeTimestamp := timestamp;
      receivedAt := now;
      if CrossedOrLocked(bestBid, bestAsk) {
        tradeable := false;
        return Err("crossed_or_locked_book_after_delta");
      }
      return Ok(());
    }

    method ApplyTick(timestamp: nat, oldTick: int, newTick: int, now: nat) returns (r: Result<()>)
      modifies this
      ensures (View(), r) == ApplyTickSizeChange(old(View()), timestamp, oldTick, newTick, now)
    {
      r := InvalidateOnError(TimestampError(timestamp, now));
      if r.Err? { return; }
      r := InvalidateOnError(OrderError(timestamp, exchangeTimestamp));
      if r.Err? { return; }
      if newTick <= 0 || oldTick != tickSize {
        tradeable := false;
        return Err("tick_size_transition_invalid");
      }
      tickSize := newTick;
      exchangeTimestamp := timestamp;
      receivedAt := now;
      tradeable := false;
      return Ok(());
    }

    method ApplyMarketEvent(e: MarketEvent, now: nat) returns (r: Result<()>)
      modifies this
      ensures (View(), r) == ApplyEvent(old(View()), e, now)
    {
      match e {
        case BookSnapshot(asset, timestamp, newHash, newBids, newAsks) =>
          if asset != assetId { return Ok(()); }
          r := ApplyBook(timestamp, newHash, newBids, newAsks, now);
        case PriceChanges(timestamp, changes) =>
          r := ApplyPriceChanges(timestamp, changes, now);
        case TickSizeChange(asset, timestamp, oldTick, newTick) =>
          if asset != assetId { return Ok(()); }
          r := ApplyTick(timestamp, oldTick, newTick, now);
        case BestBidAsk(asset, timestamp, bid, ask) =>
          if asset != assetId || timestamp < exchangeTimestamp { return Ok(()); }
          r := InvalidateOnError(TimestampError(timestamp, now));
          if r.Err? { return; }
          if bid >= ask || !IsAlignedToTick(bid, tickSize) || !IsAlignedToTick(ask, tickSize)
            || bestBid != Some(bid) || bestAsk != Some(ask)
          {
            tradeable := false;
            return Err("best_bid_ask_diverged");
          }
        case LastTradePrice(asset, timestamp, price, size, _) =>
          if asset != assetId || timestamp < exchangeTimestamp { return Ok(()); }
          r := InvalidateOnError(TimestampError(timestamp, now));
          if r.Err? { return; }
          if price <= 0 || price >= SCALE || (size.Some? && size.value <= 0) {
            tradeable := false;
            return Err("last_trade_invalid");
          }
          if lastTradeTimestamp.None? || timestamp > lastTradeTimestamp.value {
            lastTradePrice := Some(price);
            lastTradeTimestamp := Some(timestamp);
          }
        case MarketResolved(assets) =>
          if assetId in assets {
            tradeable := false;
          }
          r := Ok(());
        case NewMarket(_) =>
          r := Ok(());
      }
    }
  }

  method ValidateDeltaLevels(changes: seq<PriceChange>, tick: int) returns (error: Option<string>)
    ensures error == DeltaError(changes, tick)
  {
    assert changes[0..] == changes;
    for i := 0 to |changes|
      invariant DeltaError(changes, tick) == DeltaError(changes[i..], tick)
    {
      assert changes[i..][1..] == changes[i + 1..];
      error := LevelError(changes[i].price, changes[i].size, tick, true);
      if error.Some? { return; }
    }
    return None;
  }

  method ValidateSnapshotLevels(bids: seq<Level>, asks: seq<Level>, tick: int) returns (error: Option<string>)
    ensures error == SnapshotError(bids, asks, tick)
  {
    if |bids| > MAX_LEVELS_PER_SIDE || |asks| > MAX_LEVELS_PER_SIDE {
      return Some("book_level_limit_exceeded");
    }
    error := ValidateSide(bids, tick, "duplicate_bid_price");
    if error.Some? { return; }
    error := ValidateSide(asks, tick, "duplicate_ask_price");
    if error.Some? { return; }
    if CrossedOrLocked(Extreme(bids, true), Extreme(asks, false)) {
      return Some("crossed_or_locked_book_snapshot");
    }
    return None;
  }
}
