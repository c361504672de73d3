/** What a confirmed reconciliation guarantees, when the test cannot fail, and the gate in front of live orders. */
module AccountGate {
  import opened Prelude
  import opened Ordered
  import opened Sums
  import opened FixedPoint
  import opened FeeBounds
  import opened Book
  import opened AccountLedger
  import opened AccountReconciled
  import opened AccountHoldings

  // ----- What a yes means for cash -----

  ghost function Abs(v: int): nat {
    if v >= 0 then v else -v
  }

  lemma CashBand(noFee: int, cash: int, lower: int, upper: int, fee: int, trades: nat)
    requires lower * FEE_DENOMINATOR <= fee <= upper * FEE_DENOMINATOR && 0 <= upper - lower <= 20 * trades
    requires noFee - upper <= cash <= noFee - lower
    ensures Abs(cash * FEE_DENOMINATOR - (noFee * FEE_DENOMINATOR - fee)) <= 20 * trades * FEE_DENOMINATOR
  {
  }

  ghost function CashBeforeFees(p: Pending): int {
    p.baseline.collateral + MapSum(p.trades, SignedCash())
  }

  /** Exact fees of the pending trades, over `FEE_DENOMINATOR`. */
  ghost function ExactFees(p: Pending, remote: RemoteTrades): int {
    MapSum(Part(remote, p.trades.Keys), ExactFee())
  }

  /** A yes against the venue's own trades: each one is confirmed there, and no asset is off by anything. */
  lemma ReconciledIsConfirmed(p: Pending, current: Snapshot, remote: RemoteTrades)
    requires AuthoritativeProof(p, remote).Ok?
    requires Reconciled(p, current, AuthoritativeProof(p, remote).value) == Ok(true)
    ensures AuthoritativeProof(p, remote).value.tradeIds == p.trades.Keys
    ensures p.unresolved == {} && forall t | t in p.trades :: Proved(t, p.trades[t], remote)
    ensures HoldingsReflect(p, current) && CashReflects(p, current, AuthoritativeProof(p, remote).value)
  {
    FeeBandSound(p, remote);
    ReconciledMeaning(p, current, AuthoritativeProof(p, remote).value);
  }

  /** A yes pins cash to the exact fee arithmetic within 0.00002 per trade. */
  lemma ReconciledCashIsExact(p: Pending, current: Snapshot, remote: RemoteTrades)
    requires AuthoritativeProof(p, remote).Ok?
    requires Reconciled(p, current, AuthoritativeProof(p, remote).value) == Ok(true)
    ensures Abs(current.collateral * FEE_DENOMINATOR - (CashBeforeFees(p) * FEE_DENOMINATOR - ExactFees(p, remote)))
      <= 20 * |p.trades.Keys| * FEE_DENOMINATOR
  {
    var proof := AuthoritativeProof(p, remote).value;
    ReconciledIsConfirmed(p, current, remote);
    FeeBandSound(p, remote);
    CashBand(CashBeforeFees(p), current.collateral, proof.feeLower, proof.feeUpper, ExactFees(p, remote), |p.trades.Keys|);
  }

  // ----- When the test completes -----

  ghost function TradeSize(): Mutation -> int {
    (m: Mutation) => m.size
  }

  ghost function TradeNotional(): Mutation -> int {
    (m: Mutation) => CeilDiv(m.price * m.size, SCALE)
  }

  ghost predicate TradeFits(m: Mutation) {
    m.size >= 0 && m.price >= 0 && m.price * m.size <= MAX
  }

  /** Totals that leave room in 128 bits; checked on the inputs alone. */
  ghost predicate FitsRange(p: Pending, current: Snapshot, proof: TradeProof) {
    && NoNegative(p.baseline) && NoNegative(current)
    && (forall t | t in p.trades :: TradeFits(p.trades[t]))
    && (forall a :: Held(current.positions, a) <= MAX && Held(p.baseline.positions, a) + MapSum(p.trades, TradeSize()) <= MAX)
    && Abs(p.baseline.collateral) + MapSum(p.trades, TradeNotional()) + Abs(proof.feeLower) + Abs(proof.feeUpper) <= MAX
  }

  ghost predicate MovesWithin(moves: Moves, size: int, cash: int) {
    Abs(moves.cash) <= cash && forall a :: Abs(Size(moves.positions, a)) <= size
  }

  lemma MoveStepComplete(moves: Moves, m: Mutation, size: int, cash: int)
    requires TradeFits(m) && MovesWithin(moves, size, cash)
    requires size + m.size <= MAX && cash + TradeNotional()(m) <= MAX
    ensures MoveStep(moves, m).Ok? && MovesWithin(MoveStep(moves, m).value, size + m.size, cash + TradeNotional()(m))
  {
    MulNonNegative(m.price, m.size);
    assert Abs(Size(moves.positions, m.assetId)) <= size;
    var signed := if m.side.Buy? then m.size else -m.size;
    assert InRange(Size(moves.positions, m.assetId) + signed);
    assert MulCeil(m.price, m.size).Ok?;
    var next := MoveStep(moves, m).value;
    forall a ensures Abs(Size(next.positions, a)) <= size + m.size {
      assert Abs(Size(moves.positions, a)) <= size;
    }
  }

  lemma {:induction false} MovesComplete(moves: Moves, keys: seq<string>, trades: map<string, Mutation>,
      rest: map<string, Mutation>, size: int, cash: int)
    requires Distinct(keys) && forall k :: k in keys <==> k in rest
    requires forall k | k in rest :: k in trades && trades[k] == rest[k] && TradeFits(rest[k])
    requires MovesWithin(moves, size, cash)
    requires size + MapSum(rest, TradeSize()) <= MAX && cash + MapSum(rest, TradeNotional()) <= MAX
    ensures MovesFrom(moves, keys, trades).Ok?
    ensures MovesWithin(MovesFrom(moves, keys, trades).value, size + MapSum(rest, TradeSize()), cash + MapSum(rest, TradeNotional()))
    decreases |keys|
  {
    if keys == [] {
      assert rest == map[];
    } else {
      var k, m := keys[0], trades[keys[0]];
      var tail := rest - {k};
      MapSumRemove(rest, k, TradeSize());
      MapSumRemove(rest, k, TradeNotional());
      MapSumNonNegative(tail, TradeSize());
      NotionalNonNegative(tail);
      MoveStepComplete(moves, m, size, cash);
      assert forall j :: j in keys <==> j == k || j in keys[1..];
      MovesComplete(MoveStep(moves, m).value, keys[1..], trades, tail, size + m.size, cash + TradeNotional()(m));
    }
  }

  lemma NotionalNonNegative(trades: map<string, Mutation>)
    requires forall t | t in trades :: TradeFits(trades[t])
    ensures MapSum(trades, TradeNotional()) >= 0
  {
    forall t | t in trades ensures TradeNotional()(trades[t]) >= 0 {
      MulNonNegative(trades[t].price, trades[t].size);
    }
    MapSumNonNegative(trades, TradeNotional());
  }

  lemma {:induction false} ExpectedComplete(expected: map<string, int>, assets: seq<string>, deltas: map<string, int>)
    requires (forall a | a in assets :: a in deltas) && Distinct(assets)
    requires forall a | a in assets :: InRange(Size(expected, a) + deltas[a])
    ensures ExpectedFrom(expected, assets, deltas).Ok?
    decreases |assets|
  {
    if assets != [] && Size(expected, assets[0]) + deltas[assets[0]] >= 0 {
      ExpectedComplete(expected[assets[0] := Size(expected, assets[0]) + deltas[assets[0]]], assets[1..], deltas);
    }
  }

  lemma TradesComplete(trades: map<string, Mutation>)
    requires forall t | t in trades :: TradeFits(trades[t])
    requires MapSum(trades, TradeSize()) <= MAX && MapSum(trades, TradeNotional()) <= MAX
    ensures MovesFrom(Moves(map[], 0), SortedKeys(trades.Keys), trades).Ok?
    ensures MovesWithin(MovesFrom(Moves(map[], 0), SortedKeys(trades.Keys), trades).value,
                        MapSum(trades, TradeSize()), MapSum(trades, TradeNotional()))
  {
    SortedKeysDistinct(trades.Keys);
    MovesComplete(Moves(map[], 0), SortedKeys(trades.Keys), trades, trades, 0, 0);
  }

  lemma HoldingsComplete(p: Pending, current: Snapshot)
    requires NoNegative(p.baseline) && NoNegative(current)
    requires forall t | t in p.trades :: TradeFits(p.trades[t])
    requires forall a :: Held(current.positions, a) <= MAX && Held(p.baseline.positions, a) + MapSum(p.trades, TradeSize()) <= MAX
    requires MapSum(p.trades, TradeNotional()) <= MAX
    ensures HoldingsReconciled(p, current).Ok?
    ensures Abs(HoldingsReconciled(p, current).value.1) <= MapSum(p.trades, TradeNotional())
  {
    var volume := MapSum(p.trades, TradeSize());
    MapSumNonNegative(p.trades, TradeSize());
    HeldNonNegative(p.baseline.positions, "");
    assert Held(p.baseline.positions, "") + volume <= MAX;
    TradesComplete(p.trades);
    PositionSizesMeaning(p.baseline);
    PositionSizesMeaning(current);
    var deltas := MovesFrom(Moves(map[], 0), SortedKeys(p.trades.Keys), p.trades).value.positions;
    SortedKeysDistinct(deltas.Keys);
    forall a | a in deltas ensures InRange(Size(PositionSizes(p.baseline).value, a) + deltas[a]) {
      HeldNonNegative(p.baseline.positions, a);
      assert Abs(Size(deltas, a)) <= volume;
    }
    ExpectedComplete(PositionSizes(p.baseline).value, SortedKeys(deltas.Keys), deltas);
  }

  lemma ReconciledDefined(p: Pending, current: Snapshot, proof: TradeProof)
    requires FitsRange(p, current, proof)
    ensures Reconciled(p, current, proof).Ok?
  {
    NotionalNonNegative(p.trades);
    HoldingsComplete(p, current);
  }

  /** With room in 128 bits the test never errs, so it decides `Reflected`. */
  lemma ReconciledComplete(p: Pending, current: Snapshot, proof: TradeProof)
    requires FitsRange(p, current, proof)
    ensures Reconciled(p, current, proof) == Ok(Reflected(p, current, proof))
  {
    ReconciledDefined(p, current, proof);
    ReconciledMeaning(p, current, proof);
  }

  // ----- The gate -----

  /**
   * The account part of `submit_live_intent`: false when the intent is discarded. While trades are pending it is
   * checked with no proof, so the branch in which the source would commit the reconciliation is never taken.
   */
  method AdmitIntent(live: LiveAccount, journal: AccountJournal, current: Snapshot) returns (r: Result<bool>)
    modifies live, journal
    ensures old(live.pendingReconciliation).None? ==>
      r == Ok(true) && live.View() == old(live.View()).(snapshot := current) && journal.records == old(journal.records)
    ensures old(live.pendingReconciliation).Some? ==>
      r != Ok(true) && live.View() == old(live.View()) && journal.records == old(journal.records)
  {
    if live.pendingReconciliation.Some? {
      var reconciled :- PendingAccountReconciled(live.pendingReconciliation.value, current, EMPTY_PROOF);
      EmptyProofNeverReconciles(live.pendingReconciliation.value, current);
      if !reconciled {
        return Ok(false);
      }
      assert false;
    }
    live.lastAccountSnapshot := current;
    return Ok(true);
  }
}
