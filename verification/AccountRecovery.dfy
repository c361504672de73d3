/** `recover_account_ledger`: the account rebuilt from its journal, by another algorithm than the one that wrote it. */
module AccountRecovery {
  import opened Prelude
  import opened Ordered
  import opened Book
  import opened AccountLedger

  /** What the first pass over the records collects. */
  datatype Replay = Replay(
    ledger: map<string, LedgerEntry>, tradeBaselines: map<string, Snapshot>, orderBaselines: map<string, Snapshot>,
    known: set<string>, reconciledIds: set<string>)

  datatype Recovered = Recovered(ledger: map<string, LedgerEntry>, known: set<string>, pending: Option<Pending>, safetyLatched: bool)

  // ----- First pass -----

  function OrInsert<V>(m: map<string, V>, k: string, v: V): map<string, V> {
    if k in m then m else m[k := v]
  }

  function ReplayTrade(s: Replay, e: UserEvent, baseline: Snapshot): Result<Replay>
    requires e.TradeEvent?
  {
    var m := MutationOf(e);
    if e.tradeId in s.ledger && s.ledger[e.tradeId].mutation != m then Err("account_trade_identity_conflict")
    else
      var entry := if e.tradeId in s.ledger then
          LedgerEntry(m, SelectLatest(s.ledger[e.tradeId].latestStatus, e.status),
                      s.ledger[e.tradeId].reconciled || e.tradeId in s.reconciledIds)
        else LedgerEntry(m, e.status, e.tradeId in s.reconciledIds);
      Ok(s.(ledger := s.ledger[e.tradeId := entry],
            tradeBaselines := OrInsert(s.tradeBaselines, e.tradeId, baseline),
            known := s.known + m.orderIds))
  }

  function ReplayRecord(s: Replay, record: AccountRecord): Result<Replay> {
    match record
    case MutationRecord(e, baseline) =>
      if e.TradeEvent? then ReplayTrade(s, e, baseline)
      else if e.OrderEvent? then Ok(s.(orderBaselines := OrInsert(s.orderBaselines, e.orderId, baseline)))
      else Err("disconnect_is_not_an_account_mutation")
    case ReconciledRecord(ids) =>
      Ok(s.(reconciledIds := s.reconciledIds + Ids(ids), ledger := MarkReconciled(s.ledger, ids)))
    case OtherRecord => Ok(s)
    case MalformedRecord => Err("account_record_parse")
  }

  const NOTHING_REPLAYED := Replay(map[], map[], map[], {}, {})

  function ReplayAll(records: seq<AccountRecord>): Result<Replay>
    decreases |records|
  {
    if records == [] then Ok(NOTHING_REPLAYED)
    else
      var s :- ReplayAll(records[..|records| - 1]);
      ReplayRecord(s, records[|records| - 1])
  }

  lemma ReplayAppend(records: seq<AccountRecord>, record: AccountRecord)
    ensures ReplayAll(records + [record]) ==
      (if ReplayAll(records).Err? then ReplayAll(records) else ReplayRecord(ReplayAll(records).value, record))
  {
    assert (records + [record])[..|records|] == records;
  }

  lemma {:induction false} ReplayErrorStays(records: seq<AccountRecord>, n: nat)
    requires n <= |records| && ReplayAll(records[..n]).Err?
    ensures ReplayAll(records) == ReplayAll(records[..n])
    decreases |records|
  {
    if n == |records| {
      assert records[..n] == records;
    } else {
      var rest := records[..|records| - 1];
      assert rest[..n] == records[..n];
      ReplayErrorStays(rest, n);
    }
  }

  // ----- Second pass -----

  predicate BaselinesMatch(left: Snapshot, right: Snapshot) {
    && left.collateral == right.collateral
    && |left.positions| == |right.positions|
    && forall i | 0 <= i < |left.positions| ::
      left.positions[i].assetId == right.positions[i].assetId
      && left.positions[i].size == right.positions[i].size
      && left.positions[i].averagePrice == right.positions[i].averagePrice
  }

  function MergeBaseline(target: Option<Snapshot>, candidate: Snapshot): Result<Option<Snapshot>> {
    if target.None? then Ok(Some(candidate))
    else if BaselinesMatch(target.value, candidate) then Ok(target)
    else Err("pending_account_baseline_conflict")
  }

  predicate IsPending(entry: LedgerEntry) {
    !entry.reconciled && Classify(entry.latestStatus).Active?
  }

  function PendingTrades(ledger: map<string, LedgerEntry>): map<string, Mutation> {
    map t | t in ledger && IsPending(ledger[t]) :: ledger[t].mutation
  }

  ghost function PendingAmong(ledger: map<string, LedgerEntry>, keys: seq<string>): map<string, Mutation> {
    map t | t in keys && t in ledger && IsPending(ledger[t]) :: ledger[t].mutation
  }

  /** Merges the baselines of the pending trades, skipping the others. */
  function MergeTrades(target: Option<Snapshot>, keys: seq<string>, s: Replay): Result<Option<Snapshot>>
    requires forall k | k in keys :: k in s.ledger
    decreases |keys|
  {
    if keys == [] then Ok(target)
    else if !IsPending(s.ledger[keys[0]]) then MergeTrades(target, keys[1..], s)
    else if keys[0] !in s.tradeBaselines then Err("account_trade_baseline_missing")
    else
      var merged :- MergeBaseline(target, s.tradeBaselines[keys[0]]);
      MergeTrades(merged, keys[1..], s)
  }

  function MergeOrders(target: Option<Snapshot>, keys: seq<string>, s: Replay): Result<Option<Snapshot>>
    requires forall k | k in keys :: k in s.orderBaselines
    decreases |keys|
  {
    if keys == [] then Ok(target)
    else
      var merged :- MergeBaseline(target, s.orderBaselines[keys[0]]);
      MergeOrders(merged, keys[1..], s)
  }

  function Unresolved(s: Replay): set<string> {
    s.orderBaselines.Keys - s.known
  }

  predicate SomeInactive(ledger: map<string, LedgerEntry>) {
    exists t | t in ledger :: !Classify(ledger[t].latestStatus).Active?
  }

  function Baseline(s: Replay): Result<Option<Snapshot>> {
    var merged :- MergeTrades(None, SortedKeys(s.ledger.Keys), s);
    MergeOrders(merged, SortedKeys(Unresolved(s)), s)
  }

  function Finish(s: Replay): Result<Recovered> {
    if !(s.reconciledIds <= s.ledger.Keys) then Err("reconciliation_references_unknown_trade")
    else
      var baseline :- Baseline(s);
      var trades := PendingTrades(s.ledger);
      if trades == map[] && Unresolved(s) == {} then Ok(Recovered(s.ledger, s.known, None, SomeInactive(s.ledger)))
      else if baseline.None? then Err("pending_account_baseline_missing")
      else Ok(Recovered(s.ledger, s.known, Some(Pending(baseline.value, trades, s.known, Unresolved(s))), SomeInactive(s.ledger)))
  }

  function Recover(records: seq<AccountRecord>): Result<Recovered> {
    var s :- ReplayAll(records);
    Finish(s)
  }

  // ----- What a recovered baseline stands for -----

  /** Merging keeps the first baseline, and every other one agrees with it. */
  lemma {:induction false} MergedTradesMatch(target: Option<Snapshot>, keys: seq<string>, s: Replay)
    requires (forall k | k in keys :: k in s.ledger) && MergeTrades(target, keys, s).Ok?
    ensures var r := MergeTrades(target, keys, s).value;
      && (target.Some? ==> r == target)
      && (forall k | k in keys && IsPending(s.ledger[k]) ::
            r.Some? && k in s.tradeBaselines && BaselinesMatch(r.value, s.tradeBaselines[k]))
    decreases |keys|
  {
    if keys != [] {
      assert forall k :: k in keys <==> k == keys[0] || k in keys[1..];
      var merged := if IsPending(s.ledger[keys[0]]) then MergeBaseline(target, s.tradeBaselines[keys[0]]).value else target;
      MergedTradesMatch(merged, keys[1..], s);
    }
  }

  lemma {:induction false} MergedOrdersMatch(target: Option<Snapshot>, keys: seq<string>, s: Replay)
    requires (forall k | k in keys :: k in s.orderBaselines) && MergeOrders(target, keys, s).Ok?
    ensures var r := MergeOrders(target, keys, s).value;
      && (target.Some? ==> r == target)
      && (forall k | k in keys :: r.Some? && BaselinesMatch(r.value, s.orderBaselines[k]))
    decreases |keys|
  {
    if keys != [] {
      assert forall k :: k in keys <==> k == keys[0] || k in keys[1..];
      MergedOrdersMatch(MergeBaseline(target, s.orderBaselines[keys[0]]).value, keys[1..], s);
    }
  }

  /**
   * For any journal, however it came about: a recovered baseline agrees with the one journaled first for every pending
   * trade and every unresolved order.
   */
  lemma RecoveredBaselineAgrees(records: seq<AccountRecord>)
    requires Recover(records).Ok? && Recover(records).value.pending.Some?
    ensures var s, p := ReplayAll(records).value, Recover(records).value.pending.value;
      && (forall t | t in p.trades :: t in s.tradeBaselines && BaselinesMatch(p.baseline, s.tradeBaselines[t]))
      && (forall o | o in p.unresolved :: o in s.orderBaselines && BaselinesMatch(p.baseline, s.orderBaselines[o]))
  {
    var s := ReplayAll(records).value;
    var keys := SortedKeys(s.ledger.Keys);
    MergedTradesMatch(None, keys, s);
    MergedOrdersMatch(MergeTrades(None, keys, s).value, SortedKeys(Unresolved(s)), s);
  }

  // ----- The loops -----

  method ReplayRecords(records: seq<AccountRecord>) returns (r: Result<Replay>)
    ensures r == ReplayAll(records)
  {
    var s := NOTHING_REPLAYED;
    for i := 0 to |records|
      invariant ReplayAll(records[..i]) == Ok(s)
    {
      assert records[..i + 1] == records[..i] + [records[i]];
      ReplayAppend(records[..i], records[i]);
      var next := ReplayRecord(s, records[i]);
      if next.Err? {
        ReplayErrorStays(records, i + 1);
        return Err(next.error);
      }
      s := next.value;
    }
    assert records[..|records|] == records;
    return Ok(s);
  }

  lemma PendingAmongStep(ledger: map<string, LedgerEntry>, keys: seq<string>, k: string)
    requires k in ledger
    ensures PendingAmong(ledger, keys + [k])
      == if IsPending(ledger[k]) then PendingAmong(ledger, keys)[k := ledger[k].mutation] else PendingAmong(ledger, keys)
  {
  }

  method MergedTradeBaselines(s: Replay) returns (r: Result<Option<Snapshot>>, pending: map<string, Mutation>)
    ensures r == MergeTrades(None, SortedKeys(s.ledger.Keys), s)
    ensures r.Ok? ==> pending == PendingTrades(s.ledger)
  {
    var keys := SortedKeys(s.ledger.Keys);
    var baseline: Option<Snapshot> := None;
    pending := map[];
    assert keys[0..] == keys;
    for i := 0 to |keys|
      invariant MergeTrades(baseline, keys[i..], s) == MergeTrades(None, keys, s)
      invariant pending == PendingAmong(s.ledger, keys[..i])
    {
      assert keys[i..][1..] == keys[i + 1..];
      assert keys[..i + 1] == keys[..i] + [keys[i]];
      PendingAmongStep(s.ledger, keys[..i], keys[i]);
      var entry := s.ledger[keys[i]];
      if IsPending(entry) {
        if keys[i] !in s.tradeBaselines {
          return Err("account_trade_baseline_missing"), pending;
        }
        var merged := MergeBaseline(baseline, s.tradeBaselines[keys[i]]);
        if merged.Err? {
          return Err(merged.error), pending;
        }
        baseline := merged.value;
        pending := pending[keys[i] := entry.mutation];
      }
    }
    assert keys[..|keys|] == keys;
    assert PendingAmong(s.ledger, keys) == PendingTrades(s.ledger);
    r := Ok(baseline);
  }

  method MergedOrderBaselines(target: Option<Snapshot>, s: Replay) returns (r: Result<Option<Snapshot>>)
    ensures r == MergeOrders(target, SortedKeys(Unresolved(s)), s)
  {
    var keys := SortedKeys(Unresolved(s));
    assert forall k | k in keys :: k in s.orderBaselines;
    var baseline := target;
    assert keys[0..] == keys;
    for i := 0 to |keys|
      invariant MergeOrders(baseline, keys[i..], s) == MergeOrders(target, keys, s)
    {
      assert keys[i..][1..] == keys[i + 1..];
      var merged := MergeBaseline(baseline, s.orderBaselines[keys[i]]);
      if merged.Err? {
        return Err(merged.error);
      }
      baseline := merged.value;
    }
    return Ok(baseline);
  }

  method RecoverAccountLedger(records: seq<AccountRecord>) returns (r: Result<Recovered>)
    ensures r == Recover(records)
  {
    var s :- ReplayRecords(records);
    if !(s.reconciledIds <= s.ledger.Keys) {
      return Err("reconciliation_references_unknown_trade");
    }
    var latched := SomeInactive(s.ledger);
    var merged, trades := MergedTradeBaselines(s);
    if merged.Err? {
      return Err(merged.error);
    }
    var baseline :- MergedOrderBaselines(merged.value, s);
    if trades == map[] && Unresolved(s) == {} {
      return Ok(Recovered(s.ledger, s.known, None, latched));
    }
    if baseline.None? {
      return Err("pending_account_baseline_missing");
    }
    return Ok(Recovered(s.ledger, s.known, Some(Pending(baseline.value, trades, s.known, Unresolved(s))), latched));
  }
}
