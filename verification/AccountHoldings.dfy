/** The holdings test: a snapshot must equal the baseline plus the pending trades, asset by asset, and in cash. */
module AccountHoldings {
  import opened Prelude
  import opened Ordered
  import opened Sums
  import opened FixedPoint
  import opened Book
  import opened AccountLedger
  import opened AccountReconciled

  function Size(m: map<string, int>, assetId: string): int {
    if assetId in m then m[assetId] else 0
  }

  function NonZero(m: map<string, int>): map<string, int> {
    map a | a in m && m[a] != 0 :: m[a]
  }

  // ----- Position sizes of a snapshot -----

  function SizesFrom(sizes: map<string, int>, positions: seq<Holding>): Result<map<string, int>>
    decreases |positions|
  {
    if positions == [] then Ok(sizes)
    else if positions[0].size < 0 then Err("negative_position_in_account_snapshot")
    else
      var total :- Add(Size(sizes, positions[0].assetId), positions[0].size);
      SizesFrom(sizes[positions[0].assetId := total], positions[1..])
  }

  function PositionSizes(s: Snapshot): Result<map<string, int>> {
    var sizes :- SizesFrom(map[], s.positions);
    Ok(NonZero(sizes))
  }

  method AccountPositionSizes(s: Snapshot) returns (r: Result<map<string, int>>)
    ensures r == PositionSizes(s)
  {
    var sizes := map[];
    assert s.positions[0..] == s.positions;
    for i := 0 to |s.positions|
      invariant SizesFrom(sizes, s.positions[i..]) == SizesFrom(map[], s.positions)
    {
      assert s.positions[i..][1..] == s.positions[i + 1..];
      var p := s.positions[i];
      if p.size < 0 {
        return Err("negative_position_in_account_snapshot");
      }
      var total := Add(Size(sizes, p.assetId), p.size);
      if total.Err? {
        return Err(total.error);
      }
      sizes := sizes[p.assetId := total.value];
    }
    return Ok(NonZero(sizes));
  }

  /** What a snapshot holds of one asset, over all its rows. */
  ghost function Held(positions: seq<Holding>, assetId: string): int {
    if positions == [] then 0
    else (if positions[0].assetId == assetId then positions[0].size else 0) + Held(positions[1..], assetId)
  }

  ghost predicate NoNegative(s: Snapshot) {
    forall p | p in s.positions :: p.size >= 0
  }

  lemma {:induction false} HeldNonNegative(positions: seq<Holding>, assetId: string)
    requires forall p | p in positions :: p.size >= 0
    ensures Held(positions, assetId) >= 0
  {
    if positions != [] {
      HeldNonNegative(positions[1..], assetId);
    }
  }

  lemma {:induction false} SizesFromMeaning(sizes: map<string, int>, positions: seq<Holding>)
    requires forall a | a in sizes :: 0 <= sizes[a] <= MAX
    ensures SizesFrom(sizes, positions).Ok? <==>
      (forall p | p in positions :: p.size >= 0) && (forall a :: Size(sizes, a) + Held(positions, a) <= MAX)
    ensures SizesFrom(sizes, positions).Ok? ==>
      forall a :: Size(SizesFrom(sizes, positions).value, a) == Size(sizes, a) + Held(positions, a)
    decreases |positions|
  {
    if positions != [] {
      var first, rest := positions[0], positions[1..];
      assert positions == [first] + rest;
      var total := Size(sizes, first.assetId) + first.size;
      if first.size < 0 {
        assert first in positions;
      } else if total > MAX {
        if forall p | p in positions :: p.size >= 0 {
          HeldNonNegative(rest, first.assetId);
          assert Size(sizes, first.assetId) + Held(positions, first.assetId) > MAX;
        }
      } else {
        var next := sizes[first.assetId := total];
        SizesFromMeaning(next, rest);
        forall a ensures Size(next, a) + Held(rest, a) == Size(sizes, a) + Held(positions, a) {
        }
      }
    }
  }

  /** The sizes exist exactly when no row is negative and no total overflows; they are the totals that are not zero. */
  lemma PositionSizesMeaning(s: Snapshot)
    ensures PositionSizes(s).Ok? <==> NoNegative(s) && forall a :: Held(s.positions, a) <= MAX
    ensures PositionSizes(s).Ok? ==>
      forall a :: Size(PositionSizes(s).value, a) == Held(s.positions, a)
                  && (a in PositionSizes(s).value <==> Held(s.positions, a) != 0)
  {
    SizesFromMeaning(map[], s.positions);
  }

  // ----- What the pending trades move -----

  datatype Moves = Moves(positions: map<string, int>, cash: int)

  function MoveStep(moves: Moves, m: Mutation): Result<Moves> {
    var signed :- if m.side.Buy? then Ok(m.size) else Sub(0, m.size);
    var delta :- Add(Size(moves.positions, m.assetId), signed);
    var notional :- MulCeil(m.price, m.size);
    var cash :- if m.side.Buy? then Sub(moves.cash, notional) else Add(moves.cash, notional);
    Ok(Moves(moves.positions[m.assetId := delta], cash))
  }

  function MovesFrom(moves: Moves, keys: seq<string>, trades: map<string, Mutation>): Result<Moves>
    requires forall k | k in keys :: k in trades
    decreases |keys|
  {
    if keys == [] then Ok(moves)
    else
      var next :- MoveStep(moves, trades[keys[0]]);
      MovesFrom(next, keys[1..], trades)
  }

  method TradeMoves(trades: map<string, Mutation>) returns (r: Result<Moves>)
    ensures r == MovesFrom(Moves(map[], 0), SortedKeys(trades.Keys), trades)
  {
    var moves := Moves(map[], 0);
    var keys := SortedKeys(trades.Keys);
    assert keys[0..] == keys;
    for i := 0 to |keys|
      invariant MovesFrom(moves, keys[i..], trades) == MovesFrom(Moves(map[], 0), keys, trades)
    {
      assert keys[i..][1..] == keys[i + 1..];
      var next := MoveStep(moves, trades[keys[i]]);
      if next.Err? {
        return Err(next.error);
      }
      moves := next.value;
    }
    return Ok(moves);
  }

  ghost function SignedSize(assetId: string): Mutation -> int {
    (m: Mutation) => if m.assetId != assetId then 0 else if m.side.Buy? then m.size else -m.size
  }

  /** Cash a trade moves before fees: the notional, rounded up on both sides. */
  ghost function SignedCash(): Mutation -> int {
    (m: Mutation) => if m.side.Buy? then -CeilDiv(m.price * m.size, SCALE) else CeilDiv(m.price * m.size, SCALE)
  }

  ghost predicate MovesAre(moves: Moves, part: map<string, Mutation>) {
    moves.cash == MapSum(part, SignedCash()) && forall a :: Size(moves.positions, a) == MapSum(part, SignedSize(a))
  }

  lemma MoveStepAdds(moves: Moves, part: map<string, Mutation>, k: string, m: Mutation)
    requires MovesAre(moves, part) && k !in part && MoveStep(moves, m).Ok?
    ensures MovesAre(MoveStep(moves, m).value, part[k := m])
  {
    var next := MoveStep(moves, m).value;
    MapSumUpdate(part, k, m, SignedCash());
    forall a ensures Size(next.positions, a) == MapSum(part[k := m], SignedSize(a)) {
      MapSumUpdate(part, k, m, SignedSize(a));
    }
  }

  lemma {:induction false} MovesFromMeaning(moves: Moves, done: set<string>, keys: seq<string>, trades: map<string, Mutation>)
    requires forall k :: k in trades <==> k in done || k in keys
    requires Distinct(keys) && forall k | k in keys :: k !in done
    requires MovesAre(moves, Part(trades, done)) && MovesFrom(moves, keys, trades).Ok?
    ensures MovesAre(MovesFrom(moves, keys, trades).value, trades)
    decreases |keys|
  {
    if keys == [] {
      assert Part(trades, done) == trades;
    } else {
      var k, rest := keys[0], keys[1..];
      MoveStepAdds(moves, Part(trades, done), k, trades[k]);
      assert Part(trades, done)[k := trades[k]] == Part(trades, done + {k});
      assert forall j :: j in keys <==> j == k || j in rest;
      MovesFromMeaning(MoveStep(moves, trades[k]).value, done + {k}, rest, trades);
    }
  }

  lemma TradeMovesMeaning(trades: map<string, Mutation>)
    requires MovesFrom(Moves(map[], 0), SortedKeys(trades.Keys), trades).Ok?
    ensures MovesAre(MovesFrom(Moves(map[], 0), SortedKeys(trades.Keys), trades).value, trades)
  {
    SortedKeysDistinct(trades.Keys);
    assert Part(trades, {}) == map[];
    MovesFromMeaning(Moves(map[], 0), {}, SortedKeys(trades.Keys), trades);
  }

  // ----- Expected holdings -----

  /** Adds the deltas to the baseline; `None` once an asset would go negative. */
  function ExpectedFrom(expected: map<string, int>, assets: seq<string>, deltas: map<string, int>): Result<Option<map<string, int>>>
    requires forall a | a in assets :: a in deltas
    decreases |assets|
  {
    if assets == [] then Ok(Some(expected))
    else
      var size :- Add(Size(expected, assets[0]), deltas[assets[0]]);
      if size < 0 then Ok(None) else ExpectedFrom(expected[assets[0] := size], assets[1..], deltas)
  }

  method ExpectedPositions(baseline: map<string, int>, deltas: map<string, int>) returns (r: Result<Option<map<string, int>>>)
    ensures r == ExpectedFrom(baseline, SortedKeys(deltas.Keys), deltas)
  {
    var expected := baseline;
    var assets := SortedKeys(deltas.Keys);
    assert assets[0..] == assets;
    for i := 0 to |assets|
      invariant ExpectedFrom(expected, assets[i..], deltas) == ExpectedFrom(baseline, assets, deltas)
    {
      assert assets[i..][1..] == assets[i + 1..];
      var size := Add(Size(expected, assets[i]), deltas[assets[i]]);
      if size.Err? {
        return Err(size.error);
      }
      if size.value < 0 {
        return Ok(None);
      }
      expected := expected[assets[i] := size.value];
    }
    return Ok(Some(expected));
  }

  lemma {:induction false} ExpectedMeaning(expected: map<string, int>, assets: seq<string>, deltas: map<string, int>)
    requires forall a | a in assets :: a in deltas
    requires Distinct(assets)
    requires ExpectedFrom(expected, assets, deltas).Ok?
    ensures var r := ExpectedFrom(expected, assets, deltas).value;
      && (r.None? <==> exists a :: a in assets && Size(expected, a) + deltas[a] < 0)
      && (r.Some? ==> forall a :: Size(r.value, a) == Size(expected, a) + (if a in assets then deltas[a] else 0))
    decreases |assets|
  {
    if assets != [] {
      var a, rest := assets[0], assets[1..];
      assert forall b :: b in assets <==> b == a || b in rest;
      var size := Size(expected, a) + deltas[a];
      if size >= 0 {
        ExpectedMeaning(expected[a := size], rest, deltas);
        assert forall b | b in rest :: Size(expected[a := size], b) == Size(expected, b);
      }
    }
  }

  // ----- The test -----

  function CashReconciled(p: Pending, current: Snapshot, proof: TradeProof, cashMove: int): Result<bool> {
    var noFee :- Add(p.baseline.collateral, cashMove);
    if !(p.trades.Keys <= proof.tradeIds) || proof.feeLower > proof.feeUpper then Ok(false)
    else
      var minimum :- Sub(noFee, proof.feeUpper);
      var maximum :- Sub(noFee, proof.feeLower);
      Ok(minimum <= current.collateral <= maximum)
  }

  /** Whether the snapshot holds the baseline plus the trades, and the cash the trades move. */
  function HoldingsReconciled(p: Pending, current: Snapshot): Result<(bool, int)> {
    var moves :- MovesFrom(Moves(map[], 0), SortedKeys(p.trades.Keys), p.trades);
    var baseline :- PositionSizes(p.baseline);
    var expected :- ExpectedFrom(baseline, SortedKeys(moves.positions.Keys), moves.positions);
    if expected.None? then Ok((false, moves.cash))
    else
      var held :- PositionSizes(current);
      Ok((held == NonZero(expected.value), moves.cash))
  }

  /** `pending_account_reconciled`. */
  function Reconciled(p: Pending, current: Snapshot, proof: TradeProof): Result<bool> {
    if p.trades == map[] || p.unresolved != {} then Ok(false)
    else
      var (holdings, cashMove) :- HoldingsReconciled(p, current);
      if !holdings then Ok(false) else CashReconciled(p, current, proof, cashMove)
  }

  method PendingAccountReconciled(p: Pending, current: Snapshot, proof: TradeProof) returns (r: Result<bool>)
    ensures r == Reconciled(p, current, proof)
  {
    if p.trades == map[] || p.unresolved != {} {
      return Ok(false);
    }
    var moves :- TradeMoves(p.trades);
    var baseline :- AccountPositionSizes(p.baseline);
    var expected :- ExpectedPositions(baseline, moves.positions);
    if expected.None? {
      return Ok(false);
    }
    var held :- AccountPositionSizes(current);
    if held != NonZero(expected.value) {
      return Ok(false);
    }
    return CashReconciled(p, current, proof, moves.cash);
  }

  ghost predicate HoldingsReflect(p: Pending, current: Snapshot) {
    forall a :: Held(current.positions, a) == Held(p.baseline.positions, a) + MapSum(p.trades, SignedSize(a))
  }

  ghost predicate CashReflects(p: Pending, current: Snapshot, proof: TradeProof) {
    var noFee := p.baseline.collateral + MapSum(p.trades, SignedCash());
    proof.feeLower <= proof.feeUpper && noFee - proof.feeUpper <= current.collateral <= noFee - proof.feeLower
  }

  /** What the test stands for. */
  ghost predicate Reflected(p: Pending, current: Snapshot, proof: TradeProof) {
    && p.trades != map[] && p.unresolved == {} && p.trades.Keys <= proof.tradeIds
    && NoNegative(current) && HoldingsReflect(p, current) && CashReflects(p, current, proof)
  }

  /** Comparing the two normalised maps compares what is held of every asset. */
  lemma SameSizes(held: map<string, int>, expected: map<string, int>)
    requires forall a | a in held :: held[a] != 0
    ensures held == NonZero(expected) <==> forall a :: Size(held, a) == Size(expected, a)
  {
    var e := NonZero(expected);
    assert forall a :: Size(e, a) == Size(expected, a);
    if forall a :: Size(held, a) == Size(expected, a) {
      assert forall a :: a in held <==> Size(held, a) != 0;
      assert forall a :: a in e <==> Size(e, a) != 0;
      assert held.Keys == e.Keys;
    }
  }

  /** The deltas added to the baseline are the pending trades added to what the baseline snapshot holds. */
  lemma ExpectedSizes(p: Pending, moves: Moves)
    requires MovesAre(moves, p.trades) && PositionSizes(p.baseline).Ok?
    requires ExpectedFrom(PositionSizes(p.baseline).value, SortedKeys(moves.positions.Keys), moves.positions).Ok?
    ensures var expected := ExpectedFrom(PositionSizes(p.baseline).value, SortedKeys(moves.positions.Keys), moves.positions).value;
      && (expected.None? ==> exists a :: Held(p.baseline.positions, a) + MapSum(p.trades, SignedSize(a)) < 0)
      && (expected.Some? ==> forall a :: Size(expected.value, a) == Held(p.baseline.positions, a) + MapSum(p.trades, SignedSize(a)))
  {
    var deltas, baseline := moves.positions, PositionSizes(p.baseline).value;
    var assets := SortedKeys(deltas.Keys);
    PositionSizesMeaning(p.baseline);
    SortedKeysDistinct(deltas.Keys);
    ExpectedMeaning(baseline, assets, deltas);
    assert forall a :: Size(deltas, a) == if a in assets then deltas[a] else 0;
    if ExpectedFrom(baseline, assets, deltas).value.None? {
      var a :| a in assets && Size(baseline, a) + deltas[a] < 0;
      assert Held(p.baseline.positions, a) + MapSum(p.trades, SignedSize(a)) < 0;
    }
  }

  /** An asset that would go negative cannot match a snapshot without negative rows. */
  lemma NegativeNeverReflects(p: Pending, current: Snapshot)
    requires exists a :: Held(p.baseline.positions, a) + MapSum(p.trades, SignedSize(a)) < 0
    ensures !(NoNegative(current) && HoldingsReflect(p, current))
  {
    var a :| Held(p.baseline.positions, a) + MapSum(p.trades, SignedSize(a)) < 0;
    if NoNegative(current) {
      HeldNonNegative(current.positions, a);
      assert Held(current.positions, a) != Held(p.baseline.positions, a) + MapSum(p.trades, SignedSize(a));
    }
  }

  lemma MatchReflects(p: Pending, current: Snapshot, expected: map<string, int>)
    requires PositionSizes(current).Ok?
    requires forall a :: Size(expected, a) == Held(p.baseline.positions, a) + MapSum(p.trades, SignedSize(a))
    ensures PositionSizes(current).value == NonZero(expected) <==> HoldingsReflect(p, current)
    ensures NoNegative(current)
  {
    var held := PositionSizes(current).value;
    PositionSizesMeaning(current);
    forall a | a in held ensures held[a] != 0 {
      assert Size(held, a) == held[a];
    }
    SameSizes(held, expected);
    assert forall a :: Size(held, a) == Held(current.positions, a);
  }

  lemma HoldingsMeaning(p: Pending, current: Snapshot)
    requires HoldingsReconciled(p, current).Ok?
    ensures var (holdings, cashMove) := HoldingsReconciled(p, current).value;
      && (holdings <==> NoNegative(current) && HoldingsReflect(p, current))
      && cashMove == MapSum(p.trades, SignedCash())
  {
    var moves := MovesFrom(Moves(map[], 0), SortedKeys(p.trades.Keys), p.trades).value;
    TradeMovesMeaning(p.trades);
    ExpectedSizes(p, moves);
    var expected := ExpectedFrom(PositionSizes(p.baseline).value, SortedKeys(moves.positions.Keys), moves.positions).value;
    if expected.None? {
      NegativeNeverReflects(p, current);
    } else {
      MatchReflects(p, current, expected.value);
    }
  }

  /** Whenever the test completes, it says yes exactly when the snapshot reflects the pending trades. */
  lemma ReconciledMeaning(p: Pending, current: Snapshot, proof: TradeProof)
    requires Reconciled(p, current, proof).Ok?
    ensures Reconciled(p, current, proof).value <==> Reflected(p, current, proof)
  {
    if p.trades != map[] && p.unresolved == {} {
      HoldingsMeaning(p, current);
    }
  }

  /** No proof, no yes: what an intent is checked with while trades are pending. */
  lemma EmptyProofNeverReconciles(p: Pending, current: Snapshot)
    ensures Reconciled(p, current, EMPTY_PROOF) != Ok(true)
  {
    if Reconciled(p, current, EMPTY_PROOF).Ok? {
      ReconciledMeaning(p, current, EMPTY_PROOF);
      assert p.trades != map[] ==> p.trades.Keys != {};
    }
  }
}
