/** What each market event does to a book, in terms of the event as it arrives and of the levels the book lists. */
module MarketMeaning {
  import opened Prelude
  import opened FixedPoint
  import opened Book
  import opened MarketEvents
  import opened BookProofs

  // ----- Timing and hashes -----

  /** Not from the future, and not older than what the book holds, unless the book holds nothing yet. */
  ghost predicate InTime(b: BookState, timestamp: nat, now: nat) {
    timestamp <= now && (b.exchangeTimestamp == 0 || b.exchangeTimestamp <= timestamp)
  }

  ghost predicate HasHash(hash: Option<string>) {
    exists h :: h != "" && hash == Some(h)
  }

  lemma HashMeaning(hash: Option<string>)
    ensures HasText(hash) <==> HasHash(hash)
  {
  }

  // ----- Deltas -----

  ghost predicate At(c: PriceChange, asset: string, side: Side, price: int) {
    c.assetId == asset && c.side == side && c.price == price
  }

  /** The last change of this side and price that names the asset. */
  ghost predicate LastAt(changes: seq<PriceChange>, i: nat, asset: string, side: Side, price: int) {
    i < |changes| && At(changes[i], asset, side, price) && forall j | i < j < |changes| :: !At(changes[j], asset, side, price)
  }

  /** The last change that names the asset. */
  ghost predicate LastNaming(changes: seq<PriceChange>, i: nat, asset: string) {
    i < |changes| && changes[i].assetId == asset && forall j | i < j < |changes| :: changes[j].assetId != asset
  }

  ghost predicate NamesAsset(changes: seq<PriceChange>, asset: string) {
    exists i | 0 <= i < |changes| :: changes[i].assetId == asset
  }

  /** The size the book lists at a price, zero where it lists none. */
  ghost function SizeAt(b: BookState, side: Side, price: int): int {
    SizeIn(SideOf(Abstract(b), side), price)
  }

  lemma SizeAtMeaning(b: BookState, side: Side, price: int)
    requires WellFormed(b)
    ensures var levels := if side.Buy? then b.bids else b.asks;
      && (forall l | l in levels && l.price == price :: SizeAt(b, side, price) == l.size > 0)
      && ((forall l | l in levels :: l.price != price) ==> SizeAt(b, side, price) == 0)
  {
    var levels := if side.Buy? then b.bids else b.asks;
    StrictlySortedDistinct(levels, side.Buy?);
    forall l | l in levels && l.price == price ensures SizeAt(b, side, price) == l.size {
      MapOfMember(levels, price, l.size);
    }
    if price in MapOf(levels) {
      MapOfMember(levels, price, MapOf(levels)[price]);
    }
  }

  lemma {:induction false} MatchingSnoc(changes: seq<PriceChange>, c: PriceChange, asset: string)
    ensures Matching(changes + [c], asset) == Matching(changes, asset) + (if c.assetId == asset then [c] else [])
  {
    if changes == [] {
      assert [] + [c] == [c] && [c][1..] == [];
    } else {
      assert (changes + [c])[1..] == changes[1..] + [c];
      MatchingSnoc(changes[1..], c, asset);
    }
  }

  lemma MatchingStep(changes: seq<PriceChange>, asset: string)
    requires changes != []
    ensures var n := |changes| - 1;
      Matching(changes, asset) == Matching(changes[..n], asset) + (if changes[n].assetId == asset then [changes[n]] else [])
  {
    var n := |changes| - 1;
    assert changes == changes[..n] + [changes[n]];
    MatchingSnoc(changes[..n], changes[n], asset);
  }

  lemma LastSizeStep(before: int, changes: seq<PriceChange>, asset: string, side: Side, price: int)
    requires changes != []
    ensures var n := |changes| - 1;
      LastSize(before, Matching(changes, asset), side, price)
        == if At(changes[n], asset, side, price) then changes[n].size else LastSize(before, Matching(changes[..n], asset), side, price)
  {
    hide Matching;
    var n := |changes| - 1;
    MatchingStep(changes, asset);
    var all, pre := Matching(changes, asset), Matching(changes[..n], asset);
    if changes[n].assetId == asset {
      assert all[..|all| - 1] == pre;
    } else {
      assert all == pre;
    }
  }

  /** The last size among the changes that name the asset is that of the last change at this side and price. */
  lemma {:induction false} LastSizeWritten(before: int, changes: seq<PriceChange>, asset: string, side: Side, price: int, i: nat)
    requires LastAt(changes, i, asset, side, price)
    ensures LastSize(before, Matching(changes, asset), side, price) == changes[i].size
    decreases |changes|
  {
    hide Matching, LastSize;
    var n := |changes| - 1;
    LastSizeStep(before, changes, asset, side, price);
    if i < n {
      assert LastAt(changes[..n], i, asset, side, price);
      LastSizeWritten(before, changes[..n], asset, side, price, i);
    }
  }

  lemma {:induction false} LastSizeKept(before: int, changes: seq<PriceChange>, asset: string, side: Side, price: int)
    requires forall i | 0 <= i < |changes| :: !At(changes[i], asset, side, price)
    ensures LastSize(before, Matching(changes, asset), side, price) == before
    decreases |changes|
  {
    if changes != [] {
      var n := |changes| - 1;
      LastSizeStep(before, changes, asset, side, price);
      LastSizeKept(before, changes[..n], asset, side, price);
    }
  }

  lemma {:induction false} MatchingMember(changes: seq<PriceChange>, asset: string, c: PriceChange)
    ensures c in Matching(changes, asset) <==> c in changes && c.assetId == asset
  {
    if changes != [] {
      MatchingMember(changes[1..], asset, c);
      assert changes == [changes[0]] + changes[1..];
    }
  }

  lemma MatchingNonEmpty(changes: seq<PriceChange>, asset: string)
    ensures Matching(changes, asset) != [] <==> NamesAsset(changes, asset)
  {
    if Matching(changes, asset) != [] {
      var c := Matching(changes, asset)[0];
      MatchingMember(changes, asset, c);
      var i :| 0 <= i < |changes| && changes[i] == c;
    }
    if NamesAsset(changes, asset) {
      var i :| 0 <= i < |changes| && changes[i].assetId == asset;
      MatchingMember(changes, asset, changes[i]);
    }
  }

  lemma {:induction false} MatchingLast(changes: seq<PriceChange>, asset: string, i: nat)
    requires LastNaming(changes, i, asset)
    ensures var matching := Matching(changes, asset);
      matching != [] && matching[|matching| - 1] == changes[i]
    decreases |changes|
  {
    hide Matching;
    var n := |changes| - 1;
    MatchingStep(changes, asset);
    if i < n {
      assert LastNaming(changes[..n], i, asset);
      MatchingLast(changes[..n], asset, i);
    }
  }

  /** A delta that names the asset nowhere changes nothing. */
  lemma DeltaElsewhere(b: BookState, timestamp: nat, changes: seq<PriceChange>, now: nat)
    requires !NamesAsset(changes, b.assetId)
    ensures ApplyDelta(b, timestamp, changes, now) == (b, Ok(()))
  {
    MatchingNonEmpty(changes, b.assetId);
  }

  /**
   * After an accepted delta each size is that of the last change at its side and price, and the old one where there is
   * none; the hash is that of the last change that names the asset, and the times are those of the delta.
   */
  lemma DeltaWrites(b: BookState, timestamp: nat, changes: seq<PriceChange>, now: nat)
    requires BookProofs.Inv(b) && ApplyDelta(b, timestamp, changes, now).1.Ok? && NamesAsset(changes, b.assetId)
    ensures var d := ApplyDelta(b, timestamp, changes, now).0;
      && BookProofs.Inv(d) && d.tradeable && d.exchangeTimestamp == timestamp && d.receivedAt == now
      && d == b.(bids := d.bids, asks := d.asks, bestBid := d.bestBid, bestAsk := d.bestAsk, hash := d.hash,
                 exchangeTimestamp := timestamp, receivedAt := now)
      && (forall i: nat | LastNaming(changes, i, b.assetId) :: d.hash == changes[i].hash)
      && (forall side, p, i: nat | LastAt(changes, i, b.assetId, side, p) :: SizeAt(d, side, p) == changes[i].size)
      && (forall side, p | (forall i | 0 <= i < |changes| :: !At(changes[i], b.assetId, side, p)) :: SizeAt(d, side, p) == SizeAt(b, side, p))
  {
    hide BookProofs.Inv, MapOf, Matching, LastSize, ApplyDelta, SizeAt;
    var d := ApplyDelta(b, timestamp, changes, now).0;
    MatchingNonEmpty(changes, b.assetId);
    DeltaRefines(b, timestamp, changes, now);
    DeltaFrame(b, timestamp, changes, now);
    forall i: nat | LastNaming(changes, i, b.assetId) ensures d.hash == changes[i].hash {
      MatchingLast(changes, b.assetId, i);
    }
    forall side, p, i: nat | LastAt(changes, i, b.assetId, side, p) ensures SizeAt(d, side, p) == changes[i].size {
      DeltaSizes(b, timestamp, changes, now, side, p);
      LastSizeWritten(SizeAt(b, side, p), changes, b.assetId, side, p, i);
    }
    forall side, p | (forall i | 0 <= i < |changes| :: !At(changes[i], b.assetId, side, p)) ensures SizeAt(d, side, p) == SizeAt(b, side, p) {
      DeltaSizes(b, timestamp, changes, now, side, p);
      LastSizeKept(SizeAt(b, side, p), changes, b.assetId, side, p);
    }
  }

  lemma DeltaSizes(b: BookState, timestamp: nat, changes: seq<PriceChange>, now: nat, side: Side, p: int)
    requires BookProofs.Inv(b) && ApplyDelta(b, timestamp, changes, now).1.Ok? && Matching(changes, b.assetId) != []
    ensures SizeAt(ApplyDelta(b, timestamp, changes, now).0, side, p) == LastSize(SizeAt(b, side, p), Matching(changes, b.assetId), side, p)
  {
    hide ApplyDelta, Matching, LastSize, MapOf, MapChanges, DistinctPrices, StrictlySorted;
    AcceptedDelta(b, timestamp, changes, now);
    ListedSizes(b.bids, true);
    ListedSizes(b.asks, false);
    ChangesLeave(Abstract(b), Matching(changes, b.assetId), side, p);
  }

  lemma DeltaFrame(b: BookState, timestamp: nat, changes: seq<PriceChange>, now: nat)
    requires ApplyDelta(b, timestamp, changes, now).1.Ok? && Matching(changes, b.assetId) != []
    ensures var d := ApplyDelta(b, timestamp, changes, now).0;
      var matching := Matching(changes, b.assetId);
      && d.tradeable && d.hash == matching[|matching| - 1].hash
      && d == b.(bids := d.bids, asks := d.asks, bestBid := d.bestBid, bestAsk := d.bestAsk, hash := d.hash,
                 exchangeTimestamp := timestamp, receivedAt := now)
  {
    hide Matching, ChangeLevels, DeltaError, TimingError, HasText;
    ChangeLevelsFrame(b, Matching(changes, b.assetId));
  }

  // ----- Which deltas are accepted -----

  ghost predicate ValidChange(c: PriceChange, tick: int) {
    tick > 0 && 0 < c.price < SCALE && c.price % tick == 0 && c.size >= 0
  }

  /** A price that still has a size after the changes: the last change there, or the listed size where there is none. */
  ghost predicate Stays(b: BookState, changes: seq<PriceChange>, side: Side, price: int) {
    || (exists i: nat :: LastAt(changes, i, b.assetId, side, price) && changes[i].size != 0)
    || ((forall i | 0 <= i < |changes| :: !At(changes[i], b.assetId, side, price)) && SizeAt(b, side, price) != 0)
  }

  ghost predicate BestAfter(b: BookState, changes: seq<PriceChange>, side: Side, price: int) {
    && Stays(b, changes, side, price)
    && forall q | Stays(b, changes, side, q) :: q == price || (if side.Buy? then price > q else price < q)
  }

  /** What the changes leave is not crossed or locked, and agrees with the best prices the last change names, where it does. */
  ghost predicate Consistent(b: BookState, changes: seq<PriceChange>, last: PriceChange) {
    && (last.bestBid.Some? ==> BestAfter(b, changes, Buy, last.bestBid.value))
    && (last.bestAsk.Some? ==> BestAfter(b, changes, Sell, last.bestAsk.value))
    && forall p, q | Stays(b, changes, Buy, p) && Stays(b, changes, Sell, q) :: p < q
  }

  lemma {:induction false} LastExists(changes: seq<PriceChange>, asset: string, side: Side, price: int, k: nat) returns (i: nat)
    requires k < |changes| && At(changes[k], asset, side, price)
    ensures LastAt(changes, i, asset, side, price)
    decreases |changes| - k
  {
    if j :| k < j < |changes| && At(changes[j], asset, side, price) {
      i := LastExists(changes, asset, side, price, j);
    } else {
      i := k;
    }
  }

  lemma StaysMeaning(b: BookState, changes: seq<PriceChange>, side: Side, price: int)
    ensures Stays(b, changes, side, price) <==> LastSize(SizeAt(b, side, price), Matching(changes, b.assetId), side, price) != 0
  {
    hide Matching, LastSize, SizeAt;
    if k :| 0 <= k < |changes| && At(changes[k], b.assetId, side, price) {
      var i := LastExists(changes, b.assetId, side, price, k);
      LastSizeWritten(SizeAt(b, side, price), changes, b.assetId, side, price, i);
      forall j: nat | LastAt(changes, j, b.assetId, side, price) ensures j == i {
      }
    } else {
      LastSizeKept(SizeAt(b, side, price), changes, b.assetId, side, price);
    }
  }

  /** The prices left on a side. */
  lemma KeptPrices(b: BookState, changes: seq<PriceChange>, side: Side, price: int)
    requires WellFormed(b)
    ensures price in SideOf(MapChanges(Abstract(b), Matching(changes, b.assetId)), side) <==> Stays(b, changes, side, price)
  {
    hide Matching, LastSize, Stays, MapChanges, MapOf;
    ListedSizes(b.bids, true);
    ListedSizes(b.asks, false);
    ChangesLeave(Abstract(b), Matching(changes, b.assetId), side, price);
    StaysMeaning(b, changes, side, price);
  }

  lemma BestMeaning(b: BookState, changes: seq<PriceChange>, side: Side, price: int)
    requires WellFormed(b)
    ensures Top(SideOf(MapChanges(Abstract(b), Matching(changes, b.assetId)), side), side.Buy?) == Some(price)
      <==> BestAfter(b, changes, side, price)
  {
    hide Matching, Stays, MapChanges, WellFormed;
    var m := SideOf(MapChanges(Abstract(b), Matching(changes, b.assetId)), side);
    forall q ensures q in m <==> Stays(b, changes, side, q) {
      KeptPrices(b, changes, side, q);
    }
    if BestAfter(b, changes, side, price) {
      assert IsTop(price, m, side.Buy?);
      TopUnique(price, Top(m, side.Buy?).value, m, side.Buy?);
    }
  }

  lemma {:induction false} DeltaValid(changes: seq<PriceChange>, tick: int)
    ensures DeltaError(changes, tick).None? <==> forall c | c in changes :: ValidChange(c, tick)
  {
    if changes != [] {
      var first, rest := changes[0], changes[1..];
      DeltaValid(rest, tick);
      assert forall c :: c in changes <==> c == first || c in rest;
      assert LevelError(first.price, first.size, tick, true).None? <==> ValidChange(first, tick);
      assert (forall c | c in changes :: ValidChange(c, tick)) <==> ValidChange(first, tick) && forall c | c in rest :: ValidChange(c, tick);
    }
  }

  /** The best prices the changes leave, and whether they cross. */
  lemma ChangedTops(b: BookState, changes: seq<PriceChange>)
    requires BookProofs.Inv(b) && b.tradeable && DeltaError(Matching(changes, b.assetId), b.tickSize).None?
    ensures var d := ChangeLevels(b, Matching(changes, b.assetId));
      && (forall p :: d.bestBid == Some(p) <==> BestAfter(b, changes, Buy, p))
      && (forall p :: d.bestAsk == Some(p) <==> BestAfter(b, changes, Sell, p))
      && (!CrossedOrLocked(d.bestBid, d.bestAsk) <==> forall p, q | Stays(b, changes, Buy, p) && Stays(b, changes, Sell, q) :: p < q)
  {
    hide Matching, ChangeLevels, DeltaError, MapChanges, Stays, BestAfter;
    var d := ChangeLevels(b, Matching(changes, b.assetId));
    DeltaErrorMeaning(Matching(changes, b.assetId), b.tickSize);
    LevelsChanged(b, Matching(changes, b.assetId));
    BestAreTops(d);
    forall p
      ensures d.bestBid == Some(p) <==> BestAfter(b, changes, Buy, p)
      ensures d.bestAsk == Some(p) <==> BestAfter(b, changes, Sell, p)
    {
      BestMeaning(b, changes, Buy, p);
      BestMeaning(b, changes, Sell, p);
    }
    forall side, p ensures Stays(b, changes, side, p) <==> p in SideOf(Abstract(d), side) {
      KeptPrices(b, changes, side, p);
    }
    BestsBound(d);
    if d.bestBid.Some? && d.bestAsk.Some? {
      assert Stays(b, changes, Buy, d.bestBid.value) && Stays(b, changes, Sell, d.bestAsk.value);
    }
  }

  /** The best prices of a well-formed book are listed and bound the others. */
  lemma BestsBound(d: BookState)
    requires WellFormed(d)
    ensures forall p | p in SideOf(Abstract(d), Buy) :: d.bestBid.Some? && p <= d.bestBid.value
    ensures forall p | p in SideOf(Abstract(d), Sell) :: d.bestAsk.Some? && p >= d.bestAsk.value
    ensures d.bestBid.Some? ==> d.bestBid.value in SideOf(Abstract(d), Buy)
    ensures d.bestAsk.Some? ==> d.bestAsk.value in SideOf(Abstract(d), Sell)
  {
    StrictlySortedDistinct(d.bids, true);
    StrictlySortedDistinct(d.asks, false);
    forall p ensures p in MapOf(d.bids) <==> HasPrice(d.bids, p) {
      MapOfKey(d.bids, p);
    }
    forall p ensures p in MapOf(d.asks) <==> HasPrice(d.asks, p) {
      MapOfKey(d.asks, p);
    }
  }

  /**
   * A delta that names the asset is accepted exactly when the book is tradeable and verified, the delta is in time, the
   * last change of the asset carries a hash, every change of the asset is valid, and what they leave is consistent.
   */
  lemma DeltaAccepted(b: BookState, timestamp: nat, changes: seq<PriceChange>, now: nat, last: nat)
    requires BookProofs.Inv(b) && LastNaming(changes, last, b.assetId)
    ensures ApplyDelta(b, timestamp, changes, now).1.Ok? <==>
      && b.tradeable && HasHash(b.hash) && InTime(b, timestamp, now) && HasHash(changes[last].hash)
      && (forall c | c in changes && c.assetId == b.assetId :: ValidChange(c, b.tickSize))
      && Consistent(b, changes, changes[last])
  {
    hide BookProofs.Inv, Matching, ChangeLevels, Stays, BestAfter, DeltaError;
    var matching := Matching(changes, b.assetId);
    MatchingLast(changes, b.assetId, last);
    DeltaValid(matching, b.tickSize);
    forall c ensures c in matching <==> c in changes && c.assetId == b.assetId {
      MatchingMember(changes, b.assetId, c);
    }
    HashMeaning(b.hash);
    HashMeaning(changes[last].hash);
    if b.tradeable && DeltaError(matching, b.tickSize).None? {
      ChangedTops(b, changes);
    }
  }

  // ----- Snapshots -----

  ghost predicate ValidLevel(l: Level, tick: int) {
    tick > 0 && 0 < l.price < SCALE && l.price % tick == 0 && l.size > 0
  }

  ghost predicate ValidSide(levels: seq<Level>, tick: int) {
    |levels| <= 20_000 && DistinctPrices(levels) && forall l | l in levels :: ValidLevel(l, tick)
  }

  /** The stored side lists the levels of the snapshot, best first. */
  ghost predicate Stores(stored: seq<Level>, levels: seq<Level>, desc: bool) {
    && (forall l :: l in stored <==> l in levels)
    && forall i, j | 0 <= i < j < |stored| :: if desc then stored[i].price > stored[j].price else stored[i].price < stored[j].price
  }

  lemma SidesMeaning(bids: seq<Level>, asks: seq<Level>, tick: int)
    ensures SnapshotError(bids, asks, tick).None? <==>
      ValidSide(bids, tick) && ValidSide(asks, tick) && forall b, a | b in bids && a in asks :: b.price < a.price
  {
    hide SnapshotError, DistinctPrices;
    SnapshotAccepted(bids, asks, tick);
  }

  ghost predicate ValidSnapshot(b: BookState, timestamp: nat, hash: Option<string>, bids: seq<Level>, asks: seq<Level>, now: nat) {
    && InTime(b, timestamp, now) && HasHash(hash) && ValidSide(bids, b.tickSize) && ValidSide(asks, b.tickSize)
    && forall l, m | l in bids && m in asks :: l.price < m.price
  }

  /** A snapshot is accepted exactly when it is in time, hashed, and its sides are valid and do not cross; then it replaces the book. */
  lemma SnapshotMeaning(b: BookState, timestamp: nat, hash: Option<string>, bids: seq<Level>, asks: seq<Level>, now: nat)
    ensures var (d, r) := ApplySnapshot(b, timestamp, hash, bids, asks, now);
      && (r.Ok? <==> ValidSnapshot(b, timestamp, hash, bids, asks, now))
      && (r.Err? ==> d == b.(tradeable := false))
      && (r.Ok? ==>
            && d == b.(bids := d.bids, asks := d.asks, bestBid := Head(d.bids), bestAsk := Head(d.asks), hash := hash,
                       exchangeTimestamp := timestamp, receivedAt := now, tradeable := bids != [] && asks != [])
            && Stores(d.bids, bids, true) && Stores(d.asks, asks, false))
  {
    hide DistinctPrices, SnapshotError, Sorted;
    SidesMeaning(bids, asks, b.tickSize);
    HashMeaning(hash);
    if SnapshotError(bids, asks, b.tickSize).None? {
      SortedFacts(bids, true);
      SortedFacts(asks, false);
      SortedNonEmpty(bids, true);
      SortedNonEmpty(asks, false);
    }
  }

  // ----- Other events -----

  /** A change of tick size is accepted exactly when it is in time, positive and starts from the book's; trading then stops. */
  lemma TickMeaning(b: BookState, timestamp: nat, oldTick: int, newTick: int, now: nat)
    ensures var (d, r) := ApplyTickSizeChange(b, timestamp, oldTick, newTick, now);
      && (r.Ok? <==> InTime(b, timestamp, now) && newTick > 0 && oldTick == b.tickSize)
      && (if r.Ok? then d == b.(tickSize := newTick, exchangeTimestamp := timestamp, receivedAt := now, tradeable := false)
          else d == b.(tradeable := false))
  {
  }

  /** The best listed price of a side. */
  ghost predicate BestListed(levels: seq<Level>, desc: bool, price: int) {
    && (exists l :: l in levels && l.price == price)
    && forall l | l in levels :: if desc then l.price <= price else l.price >= price
  }

  lemma HeadIsBest(levels: seq<Level>, desc: bool, price: int)
    requires StrictlySorted(levels, desc)
    ensures Head(levels) == Some(price) <==> BestListed(levels, desc, price)
  {
    if levels != [] {
      assert levels[0] in levels;
    }
  }

  /** The announced top is the book's own. */
  ghost predicate ConfirmsTop(b: BookState, timestamp: nat, bid: int, ask: int, now: nat) {
    && timestamp <= now && bid < ask && b.tickSize > 0 && bid % b.tickSize == 0 && ask % b.tickSize == 0
    && BestListed(b.bids, true, bid) && BestListed(b.asks, false, ask)
  }

  /** A top of book older than the book is ignored; any other must be from the past, aligned and the book's own, or trading stops. */
  lemma TopMeaning(b: BookState, timestamp: nat, bid: int, ask: int, now: nat)
    requires WellFormed(b)
    ensures var (d, r) := ApplyBestBidAsk(b, timestamp, bid, ask, now);
      && (r.Ok? <==> timestamp < b.exchangeTimestamp || ConfirmsTop(b, timestamp, bid, ask, now))
      && d == if r.Ok? then b else b.(tradeable := false)
  {
    hide StrictlySorted;
    HeadIsBest(b.bids, true, bid);
    HeadIsBest(b.asks, false, ask);
  }

  /** A last trade older than the book, or not newer than the one known, is ignored; any other must be valid, or trading stops. */
  lemma LastTradeMeaning(b: BookState, timestamp: nat, price: int, size: Option<int>, now: nat)
    ensures var (d, r) := ApplyLastTrade(b, timestamp, price, size, now);
      var valid := timestamp <= now && 0 < price < SCALE && (size.Some? ==> size.value > 0);
      var newer := timestamp >= b.exchangeTimestamp && (b.lastTradeTimestamp.Some? ==> timestamp > b.lastTradeTimestamp.value);
      && (r.Ok? <==> timestamp < b.exchangeTimestamp || valid)
      && d == (if r.Err? then b.(tradeable := false)
               else if newer then b.(lastTradePrice := Some(price), lastTradeTimestamp := Some(timestamp)) else b)
  {
  }

  /** An event that names another asset changes nothing; a resolution stops trading. */
  lemma ElsewhereMeaning(b: BookState, e: MarketEvent, now: nat)
    requires match e
      case BookSnapshot(asset, _, _, _, _) => asset != b.assetId
      case PriceChanges(_, changes) => !NamesAsset(changes, b.assetId)
      case TickSizeChange(asset, _, _, _) => asset != b.assetId
      case LastTradePrice(asset, _, _, _, _) => asset != b.assetId
      case BestBidAsk(asset, _, _, _) => asset != b.assetId
      case MarketResolved(assets) => true
      case NewMarket(_) => true
    ensures var stops := e.MarketResolved? && b.assetId in e.assetIds;
      ApplyEvent(b, e, now) == (if stops then b.(tradeable := false) else b, Ok(()))
  {
    if e.PriceChanges? {
      DeltaElsewhere(b, e.timestamp, e.changes, now);
    }
  }
}
