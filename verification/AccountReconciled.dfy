/** When pending user trades count as reflected in a later account snapshot. */
module AccountReconciled {
  import opened Prelude
  import opened Ordered
  import opened Sums
  import opened FixedPoint
  import opened FeeBounds
  import opened Book
  import opened AccountLedger

  datatype TradeProof = TradeProof(tradeIds: set<string>, feeLower: int, feeUpper: int)

  const EMPTY_PROOF := TradeProof({}, 0, 0)

  // ----- The fee band of the authoritative trades -----

  function SameIdentity(t: RemoteTrade, m: Mutation): bool {
    t.assetId == m.assetId && t.side == m.side && t.price == m.price && t.size == m.size && Ids(t.orderIds) == m.orderIds
  }

  /** One pending trade added to the proof; a trade the snapshot lacks, or holds as failed or unknown, adds nothing. */
  function ProofStep(proof: TradeProof, tradeId: string, m: Mutation, remote: RemoteTrades): Result<TradeProof> {
    if tradeId !in remote then Ok(proof)
    else
      var t := remote[tradeId];
      if !SameIdentity(t, m) then Err("authoritative_trade_identity_conflict")
      else if !Classify(t.status).Active? then Ok(proof)
      else
        var (lower, upper) :- TradeFeeBounds(t.size, t.price, t.feeRateBps);
        var totalLower :- Add(proof.feeLower, lower);
        var totalUpper :- Add(proof.feeUpper, upper);
        Ok(TradeProof(proof.tradeIds + {tradeId}, totalLower, totalUpper))
  }

  function ProofFrom(proof: TradeProof, keys: seq<string>, trades: map<string, Mutation>, remote: RemoteTrades): Result<TradeProof>
    requires forall k | k in keys :: k in trades
    decreases |keys|
  {
    if keys == [] then Ok(proof)
    else
      var next :- ProofStep(proof, keys[0], trades[keys[0]], remote);
      ProofFrom(next, keys[1..], trades, remote)
  }

  function AuthoritativeProof(p: Pending, remote: RemoteTrades): Result<TradeProof> {
    ProofFrom(EMPTY_PROOF, SortedKeys(p.trades.Keys), p.trades, remote)
  }

  method AuthoritativePendingTradeProof(p: Pending, remote: RemoteTrades) returns (r: Result<TradeProof>)
    ensures r == AuthoritativeProof(p, remote)
  {
    var proof := EMPTY_PROOF;
    var keys := SortedKeys(p.trades.Keys);
    assert keys[0..] == keys;
    for i := 0 to |keys|
      invariant ProofFrom(proof, keys[i..], p.trades, remote) == AuthoritativeProof(p, remote)
    {
      assert keys[i..][1..] == keys[i + 1..];
      var next := ProofStep(proof, keys[i], p.trades[keys[i]], remote);
      if next.Err? {
        return Err(next.error);
      }
      proof := next.value;
    }
    return Ok(proof);
  }

  ghost function ExactFee(): RemoteTrade -> int {
    (t: RemoteTrade) => FeeNumerator(t.size, t.price, t.feeRateBps)
  }

  ghost function Part<V>(m: map<string, V>, ids: set<string>): map<string, V> {
    map t | t in m && t in ids :: m[t]
  }

  /** The band encloses the exact total fee of the proved trades and is at most 20 raw units wide per trade. */
  ghost predicate BandHolds(proof: TradeProof, remote: RemoteTrades) {
    && proof.feeLower * FEE_DENOMINATOR <= MapSum(Part(remote, proof.tradeIds), ExactFee()) <= proof.feeUpper * FEE_DENOMINATOR
    && 0 <= proof.feeUpper - proof.feeLower <= 20 * |proof.tradeIds|
  }

  /** The venue's trade and the pending one are the same trade. */
  ghost predicate Agrees(t: RemoteTrade, m: Mutation) {
    && t.assetId == m.assetId && t.side == m.side && t.price == m.price && t.size == m.size
    && forall id :: id in t.orderIds <==> id in m.orderIds
  }

  lemma IdentityMeaning(t: RemoteTrade, m: Mutation)
    ensures SameIdentity(t, m) <==> Agrees(t, m)
  {
    assert forall id :: id in Ids(t.orderIds) <==> id in t.orderIds;
  }

  lemma ProofStepBand(proof: TradeProof, tradeId: string, m: Mutation, remote: RemoteTrades)
    requires BandHolds(proof, remote) && tradeId !in proof.tradeIds
    requires ProofStep(proof, tradeId, m, remote).Ok?
    ensures BandHolds(ProofStep(proof, tradeId, m, remote).value, remote)
  {
    var next := ProofStep(proof, tradeId, m, remote).value;
    if next != proof {
      var t := remote[tradeId];
      FeeEnvelope(t.size, t.price, t.feeRateBps);
      var (lower, upper) := TradeFeeBounds(t.size, t.price, t.feeRateBps).value;
      var before := Part(remote, proof.tradeIds);
      assert Part(remote, next.tradeIds) == before[tradeId := t];
      MapSumUpdate(before, tradeId, t, ExactFee());
    }
  }

  /** A pending trade is proved exactly when the snapshot holds it, unchanged and active. */
  ghost predicate Proved(tradeId: string, m: Mutation, remote: RemoteTrades) {
    tradeId in remote && Agrees(remote[tradeId], m) && ActiveWord(remote[tradeId].status)
  }

  lemma ProvedStep(proof: TradeProof, tradeId: string, m: Mutation, remote: RemoteTrades)
    requires ProofStep(proof, tradeId, m, remote).Ok?
    ensures ProofStep(proof, tradeId, m, remote).value.tradeIds
      == proof.tradeIds + (if Proved(tradeId, m, remote) then {tradeId} else {})
    ensures tradeId in remote ==> Agrees(remote[tradeId], m)
  {
    if tradeId in remote {
      IdentityMeaning(remote[tradeId], m);
      StatusMeaning(remote[tradeId].status);
    }
  }

  lemma {:induction false} ProofFromSound(proof: TradeProof, keys: seq<string>, trades: map<string, Mutation>, remote: RemoteTrades)
    requires forall k | k in keys :: k in trades && k !in proof.tradeIds
    requires Distinct(keys) && BandHolds(proof, remote)
    requires ProofFrom(proof, keys, trades, remote).Ok?
    ensures var r := ProofFrom(proof, keys, trades, remote).value;
      && BandHolds(r, remote)
      && (forall k :: k in r.tradeIds <==> k in proof.tradeIds || (k in keys && Proved(k, trades[k], remote)))
      && (forall k | k in keys && k in remote :: Agrees(remote[k], trades[k]))
    decreases |keys|
  {
    hide Agrees, ActiveWord, ProofStep, BandHolds;
    if keys != [] {
      ProvedStep(proof, keys[0], trades[keys[0]], remote);
      ProofStepBand(proof, keys[0], trades[keys[0]], remote);
      ProofFromSound(ProofStep(proof, keys[0], trades[keys[0]], remote).value, keys[1..], trades, remote);
      assert forall k :: k in keys <==> k == keys[0] || k in keys[1..];
    }
  }

  /**
   * A proof covers exactly the pending trades the snapshot confirms; the exact rational total of their fees
   * lies in its band, which is at most 0.00002 wide per trade.
   */
  lemma FeeBandSound(p: Pending, remote: RemoteTrades)
    requires AuthoritativeProof(p, remote).Ok?
    ensures var proof := AuthoritativeProof(p, remote).value;
      && BandHolds(proof, remote)
      && (forall k :: k in proof.tradeIds <==> k in p.trades && Proved(k, p.trades[k], remote))
      && (forall k | k in p.trades && k in remote :: Agrees(remote[k], p.trades[k]))
  {
    SortedKeysDistinct(p.trades.Keys);
    assert Part(remote, {}) == map[];
    ProofFromSound(EMPTY_PROOF, SortedKeys(p.trades.Keys), p.trades, remote);
  }
}
