/** Exactly how much a flatten sells, and at which prices: best bids first, until the position or the band is used up. */
module PaperFlattenExact {
  import opened Prelude
  import opened Ordered
  import opened FixedPoint
  import opened Book
  import opened MarketEvents
  import opened PaperCore
  import opened PaperInvariant
  import opened PaperMatching
  import opened PaperFlatten
  import opened PaperFlattenProofs

  /** What a level offers at `floor` or better. */
  function LevelShare(l: Level, floor: int, bps: nat): int {
    if l.price < floor || l.size <= 0 then 0 else l.size * bps / 10_000
  }

  /** The participating liquidity at `floor` or better. */
  function BandShare(levels: seq<Level>, floor: int, bps: nat): int {
    if levels == [] then 0 else LevelShare(levels[0], floor, bps) + BandShare(levels[1..], floor, bps)
  }

  // ----- The listing order does not matter -----

  lemma {:induction false} BandInsert(l: Level, levels: seq<Level>, floor: int, bps: nat)
    ensures BandShare(Insert(l, levels, true), floor, bps) == LevelShare(l, floor, bps) + BandShare(levels, floor, bps)
  {
    if levels != [] && Before(true, levels[0].price, l.price) {
      BandInsert(l, levels[1..], floor, bps);
      assert ([levels[0]] + Insert(l, levels[1..], true))[1..] == Insert(l, levels[1..], true);
    } else {
      assert ([l] + levels)[1..] == levels;
    }
  }

  lemma {:induction false} BandSorted(levels: seq<Level>, floor: int, bps: nat)
    ensures BandShare(Sorted(levels, true), floor, bps) == BandShare(levels, floor, bps)
  {
    if levels != [] {
      BandSorted(levels[1..], floor, bps);
      BandInsert(levels[0], Sorted(levels[1..], true), floor, bps);
    }
  }

  ghost predicate Descending(levels: seq<Level>) {
    forall i, j | 0 <= i < j < |levels| :: levels[i].price >= levels[j].price
  }

  lemma {:induction false} InsertDescending(l: Level, levels: seq<Level>)
    requires Descending(levels)
    ensures Descending(Insert(l, levels, true))
  {
    if levels != [] && Before(true, levels[0].price, l.price) {
      InsertDescending(l, levels[1..]);
      InsertSameLevels(l, levels[1..], true);
      var rest := Insert(l, levels[1..], true);
      forall i | 0 <= i < |rest| ensures levels[0].price >= rest[i].price {
        assert rest[i] in rest;
      }
    }
  }

  lemma {:induction false} SortedDescending(levels: seq<Level>)
    ensures Descending(Sorted(levels, true))
  {
    if levels != [] {
      SortedDescending(levels[1..]);
      InsertDescending(levels[0], Sorted(levels[1..], true));
    }
  }

  // ----- Clips -----

  lemma LevelShareNonNegative(l: Level, floor: int, bps: nat)
    ensures LevelShare(l, floor, bps) >= 0
  {
    if l.size > 0 {
      MulNonNegative(l.size, bps);
    }
  }

  lemma {:induction false} BandNonNegative(levels: seq<Level>, floor: int, bps: nat)
    ensures BandShare(levels, floor, bps) >= 0
  {
    if levels != [] {
      LevelShareNonNegative(levels[0], floor, bps);
      BandNonNegative(levels[1..], floor, bps);
    }
  }

  lemma {:induction false} BelowBand(levels: seq<Level>, floor: int, bps: nat)
    requires forall l | l in levels :: l.price < floor
    ensures BandShare(levels, floor, bps) == 0
  {
    if levels != [] {
      assert levels[0] in levels && forall l | l in levels[1..] :: l in levels;
      BelowBand(levels[1..], floor, bps);
    }
  }

  /** Total clipped at `floor` or better. */
  function ClippedAbove(clips: seq<Clip>, floor: int): int {
    if clips == [] then 0 else (if clips[0].price >= floor then clips[0].quantity else 0) + ClippedAbove(clips[1..], floor)
  }

  lemma AvailableIsShare(l: Level, minimum: int, bps: nat)
    requires ParticipationAmount(l.size, bps).Ok? && l.price >= minimum
    ensures LevelShare(l, minimum, bps) == Max(ParticipationAmount(l.size, bps).value, 0)
  {
    if l.size > 0 {
      ParticipationIsFloor(l.size, bps);
    } else if ParticipationAmount(l.size, bps).value > 0 {
      PositiveParticipation(l.size, bps);
    }
  }

  /** At every price: what is clipped there or better is the liquidity there or better, up to the position. */
  lemma {:induction false} ClipsExact(levels: seq<Level>, remaining: int, minimum: int, bps: nat, floor: int)
    requires Descending(levels) && remaining >= 0 && floor >= minimum && ClipLevels(levels, remaining, minimum, bps).Ok?
    ensures ClippedAbove(ClipLevels(levels, remaining, minimum, bps).value, floor) == Min(remaining, BandShare(levels, floor, bps))
  {
    BandNonNegative(levels, floor, bps);
    if levels == [] || remaining == 0 {
    } else if levels[0].price < minimum {
      forall l | l in levels ensures l.price < floor {
        var i :| 0 <= i < |levels| && levels[i] == l;
        assert levels[0].price >= l.price;
      }
      BelowBand(levels, floor, bps);
    } else {
      ClipsExactStep(levels, remaining, minimum, bps, floor);
    }
  }

  lemma {:induction false} ClipsExactStep(levels: seq<Level>, remaining: int, minimum: int, bps: nat, floor: int)
    requires levels != [] && remaining > 0 && levels[0].price >= minimum
    requires Descending(levels) && floor >= minimum && ClipLevels(levels, remaining, minimum, bps).Ok?
    ensures ClippedAbove(ClipLevels(levels, remaining, minimum, bps).value, floor) == Min(remaining, BandShare(levels, floor, bps))
    decreases levels, 0
  {
    var available := ParticipationAmount(levels[0].size, bps).value;
    var quantity := Min(remaining, available);
    var left := if quantity > 0 then remaining - quantity else remaining;
    AvailableIsShare(levels[0], minimum, bps);
    ClipsExact(levels[1..], left, minimum, bps, floor);
    BandNonNegative(levels[1..], floor, bps);
    if levels[0].price < floor {
      forall l | l in levels[1..] ensures l.price < floor {
        var i :| 0 <= i < |levels[1..]| && levels[1..][i] == l;
        assert levels[0].price >= levels[i + 1].price;
      }
      BelowBand(levels[1..], floor, bps);
    }
    if quantity > 0 {
      var rest := ClipLevels(levels[1..], left, minimum, bps).value;
      assert ([Clip(levels[0].price, quantity)] + rest)[1..] == rest;
    }
  }

  // ----- Plans -----

  /** Every held asset has its plan, and earlier plans stay. */
  lemma {:induction false} PlanAssetsMade(e: Engine, assets: seq<string>, books: map<string, BookState>, now: nat, limits: Limits,
      plans: seq<AssetPlan>, n: nat) returns (i: nat)
    requires Shape(e) && (forall a | a in assets :: a in e.positions) && PlanAssets(e, assets, books, now, limits, plans).Ok?
    requires n < |assets| && e.positions[assets[n]].size > 0
    ensures var made := PlanAssets(e, assets, books, now, limits, plans).value;
      var a := assets[n];
      && plans <= made && i < |made| && a in books && made[i].position == e.positions[a]
      && PlanAsset(e.positions[a], books[a], now, limits, e.participationBps) == Ok(made[i])
    decreases |assets|
  {
    var position := e.positions[assets[0]];
    assert assets[0] in assets && forall a | a in assets[1..] :: a in assets;
    var more := plans;
    if position.size > 0 {
      more := plans + [PlanAsset(position, books[position.assetId], now, limits, e.participationBps).value];
    }
    if n == 0 {
      PlansStay(e, assets[1..], books, now, limits, more);
      i := |plans|;
      assert more[|plans|] == PlanAssets(e, assets, books, now, limits, plans).value[|plans|];
    } else {
      i := PlanAssetsMade(e, assets[1..], books, now, limits, more, n - 1);
    }
  }

  lemma {:induction false} PlansStay(e: Engine, assets: seq<string>, books: map<string, BookState>, now: nat, limits: Limits, plans: seq<AssetPlan>)
    requires (forall a | a in assets :: a in e.positions) && PlanAssets(e, assets, books, now, limits, plans).Ok?
    ensures plans <= PlanAssets(e, assets, books, now, limits, plans).value
    decreases |assets|
  {
    if assets != [] {
      var position := e.positions[assets[0]];
      assert assets[0] in assets && forall a | a in assets[1..] :: a in assets;
      if position.size <= 0 {
        PlansStay(e, assets[1..], books, now, limits, plans);
      } else {
        var plan := PlanAsset(position, books[position.assetId], now, limits, e.participationBps).value;
        PlansStay(e, assets[1..], books, now, limits, plans + [plan]);
        assert plans <= plans + [plan];
      }
    }
  }

  // ----- Fills -----

  function SoldAbove(assetId: string, floor: int): Fill -> int {
    (f: Fill) => if f.assetId == assetId && f.price >= floor then f.size else 0
  }

  function PlannedAbove(plans: seq<AssetPlan>, assetId: string, floor: int): int {
    if plans == [] then 0
    else (if plans[0].position.assetId == assetId then ClippedAbove(plans[0].clips, floor) else 0) + PlannedAbove(plans[1..], assetId, floor)
  }

  lemma {:induction false} ClipsSoldAbove(fills: seq<Fill>, clips: seq<Clip>, assetId: string, a: string, floor: int)
    requires FillsAreSales(fills, ClipSales(clips, assetId))
    ensures FillSum(fills, SoldAbove(a, floor)) == if a == assetId then ClippedAbove(clips, floor) else 0
    decreases |clips|
  {
    ClipSalesFacts(clips, assetId);
    if clips != [] {
      ClipSalesFacts(clips[1..], assetId);
      ClipsSoldAbove(fills[1..], clips[1..], assetId, a, floor);
    }
  }

  lemma {:induction false} SalesAbove(fills: seq<Fill>, plans: seq<AssetPlan>, a: string, floor: int)
    requires FillsAreSales(fills, Sales(plans))
    ensures FillSum(fills, SoldAbove(a, floor)) == PlannedAbove(plans, a, floor)
    decreases |plans|
  {
    if plans != [] {
      var n := |plans[0].clips|;
      ClipSalesFacts(plans[0].clips, plans[0].position.assetId);
      var head, tail := fills[..n], fills[n..];
      ClipsSoldAbove(head, plans[0].clips, plans[0].position.assetId, a, floor);
      SalesAbove(tail, plans[1..], a, floor);
      FillSumConcat(head, tail, SoldAbove(a, floor));
      assert fills == head + tail;
    }
  }

  lemma {:induction false} PlannedAboveElsewhere(plans: seq<AssetPlan>, a: string, floor: int)
    requires forall i | 0 <= i < |plans| :: plans[i].position.assetId != a
    ensures PlannedAbove(plans, a, floor) == 0
  {
    if plans != [] {
      assert forall i | 0 <= i < |plans[1..]| :: plans[1..][i] == plans[i + 1];
      PlannedAboveElsewhere(plans[1..], a, floor);
    }
  }

  lemma {:induction false} PlannedAboveAt(plans: seq<AssetPlan>, n: nat, floor: int)
    requires n < |plans| && forall i, j | 0 <= i < j < |plans| :: plans[i].position.assetId != plans[j].position.assetId
    ensures PlannedAbove(plans, plans[n].position.assetId, floor) == ClippedAbove(plans[n].clips, floor)
  {
    assert forall i | 0 <= i < |plans[1..]| :: plans[1..][i] == plans[i + 1];
    if n == 0 {
      PlannedAboveElsewhere(plans[1..], plans[0].position.assetId, floor);
    } else {
      PlannedAboveAt(plans[1..], n - 1, floor);
    }
  }

  // ----- What is sold -----

  /** What a flatten sells of a position at `floor` or better: nothing when the whole band is below the minimum order size. */
  function Sellable(position: Position, book: BookState, minimum: int, floor: int, bps: nat): int {
    if Min(position.size, BandShare(book.bids, minimum, bps)) < book.minOrderSize then 0
    else Min(position.size, BandShare(book.bids, floor, bps))
  }

  lemma {:induction false} ClippedAboveAll(clips: seq<Clip>, minimum: int)
    requires forall c | c in clips :: c.price >= minimum
    ensures ClippedAbove(clips, minimum) == ClipTotal(clips)
  {
    if clips != [] {
      assert clips[0] in clips && forall c | c in clips[1..] :: c in clips;
      ClippedAboveAll(clips[1..], minimum);
    }
  }

  lemma PlanExact(position: Position, book: BookState, now: nat, limits: Limits, bps: nat, floor: int)
    requires position.size > 0 && PlanAsset(position, book, now, limits, bps).Ok?
    ensures MinimumPrice(book, limits).Ok?
    ensures floor >= MinimumPrice(book, limits).value ==>
      ClippedAbove(PlanAsset(position, book, now, limits, bps).value.clips, floor)
        == Sellable(position, book, MinimumPrice(book, limits).value, floor, bps)
  {
    var minimum, sorted := MinimumPrice(book, limits).value, Sorted(book.bids, true);
    var clips := ClipLevels(sorted, position.size, minimum, bps).value;
    SortedDescending(book.bids);
    ClipLevelsFit(sorted, position.size, minimum, bps);
    forall c | c in clips ensures c.price >= minimum {
      assert ClipFits(c, sorted, minimum, bps);
    }
    ClippedAboveAll(clips, minimum);
    ClipsExact(sorted, position.size, minimum, bps, minimum);
    BandSorted(book.bids, minimum, bps);
    if floor >= minimum {
      ClipsExact(sorted, position.size, minimum, bps, floor);
      BandSorted(book.bids, floor, bps);
    }
  }

  /**
   * A successful flatten sells of every held asset, at every price of its band or better, exactly the participating bid
   * liquidity there, up to the position; or nothing of it, when all it could sell is below the minimum order size.
   */
  lemma FlattenExact(e: Engine, books: map<string, BookState>, now: nat, limits: Limits, idFor: string -> string, k: nat,
      a: string, floor: int)
    requires Inv(e, k) && FreshIds(e, idFor) && Flatten(e, books, now, limits, idFor).Ok?
    requires a in e.positions && e.positions[a].size > 0
    ensures a in books && MinimumPrice(books[a], limits).Ok?
    ensures floor >= MinimumPrice(books[a], limits).value ==>
      FillSum(Flatten(e, books, now, limits, idFor).value.1, SoldAbove(a, floor))
        == Sellable(e.positions[a], books[a], MinimumPrice(books[a], limits).value, floor, e.participationBps)
  {
    var plans := FlattenExecutes(e, books, now, limits, idFor, k);
    var assets := SortedKeys(e.positions.Keys);
    assert a in assets;
    var n: nat :| n < |assets| && assets[n] == a;
    var i := PlanAssetsMade(e, assets, books, now, limits, [], n);
    PlanExact(e.positions[a], books[a], now, limits, e.participationBps, floor);
    var fills := Flatten(e, books, now, limits, idFor).value.1;
    assert fills[0..] == fills;
    SalesAbove(fills, plans, a, floor);
    PlannedAboveAt(plans, i, floor);
  }
}
