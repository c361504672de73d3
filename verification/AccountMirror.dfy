/** The journal mirrors the live account: what every journaled step keeps, and what recovery makes of it. */
module AccountMirror {
  import opened Prelude
  import opened Ordered
  import opened Book
  import opened AccountLedger
  import opened AccountRecovery

  // ----- The invariant -----

  /** An unreconciled trade was first journaled with this baseline. */
  ghost predicate TradesSince(s: Replay, baseline: Snapshot) {
    forall t | t in s.ledger && !s.ledger[t].reconciled :: t in s.tradeBaselines && s.tradeBaselines[t] == baseline
  }

  ghost predicate OrdersSince(s: Replay, baseline: Snapshot) {
    forall o | o in Unresolved(s) :: s.orderBaselines[o] == baseline
  }

  ghost predicate Healthy(s: Replay) {
    && s.tradeBaselines.Keys == s.ledger.Keys
    && s.reconciledIds <= s.ledger.Keys
    && (forall t | t in s.ledger :: Classify(s.ledger[t].latestStatus).Active? && s.ledger[t].mutation.orderIds <= s.known)
    && (forall t | t in s.reconciledIds :: s.ledger[t].reconciled)
  }

  ghost predicate PendingMirrors(pending: Option<Pending>, s: Replay)
    requires Healthy(s)
  {
    match pending
    case None => PendingTrades(s.ledger) == map[] && Unresolved(s) == {}
    case Some(p) =>
      && p.trades == PendingTrades(s.ledger) && p.unresolved == Unresolved(s)
      && TradesSince(s, p.baseline) && OrdersSince(s, p.baseline)
      && p.authoritative <= s.known
      && (p.trades != map[] || p.unresolved != {})
  }

  ghost predicate Mirrors(a: Account, s: Replay) {
    Healthy(s) && a.ledger == s.ledger && a.known == s.known && PendingMirrors(a.pending, s)
  }

  ghost predicate Mirrored(a: Account, records: seq<AccountRecord>) {
    ReplayAll(records).Ok? && Mirrors(a, ReplayAll(records).value)
  }

  // ----- What recovery makes of a mirrored account -----

  /** Recovery marks every known order id authoritative; nothing else may differ. */
  function AfterRestart(a: Account): Option<Pending> {
    if a.pending.None? then None else Some(a.pending.value.(authoritative := a.known))
  }

  lemma {:induction false} MergeOneBaseline(s: Replay, target: Option<Snapshot>, keys: seq<string>, baseline: Snapshot)
    requires Healthy(s) && TradesSince(s, baseline)
    requires forall k | k in keys :: k in s.ledger
    requires target.None? || target.value == baseline
    ensures MergeTrades(target, keys, s)
      == Ok(if target.Some? || exists k :: k in keys && IsPending(s.ledger[k]) then Some(baseline) else None)
    decreases |keys|
  {
    if keys != [] {
      assert forall k :: k in keys <==> k == keys[0] || k in keys[1..];
      MergeOneBaseline(s, if IsPending(s.ledger[keys[0]]) then Some(baseline) else target, keys[1..], baseline);
    }
  }

  lemma {:induction false} MergeOneOrderBaseline(s: Replay, target: Option<Snapshot>, keys: seq<string>, baseline: Snapshot)
    requires OrdersSince(s, baseline) && forall k | k in keys :: k in Unresolved(s)
    requires target.None? || target.value == baseline
    ensures MergeOrders(target, keys, s) == Ok(if target.Some? || keys != [] then Some(baseline) else None)
    decreases |keys|
  {
    if keys != [] {
      MergeOneOrderBaseline(s, Some(baseline), keys[1..], baseline);
    }
  }

  lemma BaselineRecovered(s: Replay, baseline: Snapshot)
    requires Healthy(s) && TradesSince(s, baseline) && OrdersSince(s, baseline)
    ensures Baseline(s) == Ok(if PendingTrades(s.ledger) != map[] || Unresolved(s) != {} then Some(baseline) else None)
  {
    var keys := SortedKeys(s.ledger.Keys);
    MergeOneBaseline(s, None, keys, baseline);
    MergeOneOrderBaseline(s, MergeTrades(None, keys, s).value, SortedKeys(Unresolved(s)), baseline);
    if k :| k in keys && IsPending(s.ledger[k]) {
      assert k in PendingTrades(s.ledger);
    } else {
      assert PendingTrades(s.ledger) == map[];
    }
    assert SortedKeys(Unresolved(s)) == [] <==> Unresolved(s) == {};
  }

  lemma FinishMirrors(a: Account, s: Replay)
    requires Mirrors(a, s)
    ensures Finish(s) == Ok(Recovered(a.ledger, a.known, AfterRestart(a), false))
  {
    if a.pending.Some? {
      BaselineRecovered(s, a.pending.value.baseline);
    } else {
      NothingPending(s);
      BaselineRecovered(s, a.snapshot);
    }
    assert !SomeInactive(s.ledger);
  }

  lemma NothingPending(s: Replay)
    requires Healthy(s) && PendingTrades(s.ledger) == map[] && Unresolved(s) == {}
    ensures forall baseline :: TradesSince(s, baseline) && OrdersSince(s, baseline)
    ensures forall t | t in s.ledger :: s.ledger[t].reconciled
  {
    forall t | t in s.ledger ensures s.ledger[t].reconciled {
      assert t !in PendingTrades(s.ledger);
    }
  }

  /** Recovery rebuilds the live account from its journal: ledger, known ids, pending trades, orders and baseline. */
  lemma RecoverRebuilds(a: Account, records: seq<AccountRecord>)
    requires Mirrored(a, records)
    ensures Recover(records) == Ok(Recovered(a.ledger, a.known, AfterRestart(a), false))
  {
    FinishMirrors(a, ReplayAll(records).value);
  }

  // ----- Steps that keep it -----

  /** An event trips the latch: it contradicts a known trade, or its status is failed or unknown. */
  predicate Trips(a: Account, e: UserEvent) {
    e.TradeEvent? && (Conflicts(a, e) || !Classify(e.status).Active?)
  }

  lemma MirrorsOrder(a: Account, s: Replay, e: UserEvent)
    requires Mirrors(a, s) && e.OrderEvent? && RequiresReconciliation(e)
    ensures RecordEvent(a, e).1.Ok?
    ensures Mirrors(RecordEvent(a, e).0, ReplayRecord(s, MutationRecord(e, BaselineOf(a))).value)
  {
    var next := ReplayRecord(s, MutationRecord(e, BaselineOf(a))).value;
    if a.pending.None? {
      NothingPending(s);
    }
    if e.orderId in s.known {
      assert Unresolved(next) == Unresolved(s);
    } else {
      assert Unresolved(next) == Unresolved(s) + {e.orderId};
    }
  }

  predicate IsReconciled(ledger: map<string, LedgerEntry>, t: string) {
    t in ledger && ledger[t].reconciled
  }

  lemma TradeReplayed(a: Account, s: Replay, e: UserEvent)
    requires Mirrors(a, s) && e.TradeEvent? && !Trips(a, e)
    ensures ReplayTrade(s, e, BaselineOf(a)).Ok?
    ensures var next := ReplayTrade(s, e, BaselineOf(a)).value;
      && Healthy(next) && WithTrade(a, e).ledger == next.ledger && WithTrade(a, e).known == next.known
      && Unresolved(next) == Unresolved(s) - Ids(e.orderIds)
  {
    if e.tradeId in s.ledger {
      LatestStatus(s.ledger[e.tradeId].latestStatus, e.status);
    }
  }

  /** The ledger after one more accepted revision of a trade. */
  function Revised(ledger: map<string, LedgerEntry>, e: UserEvent): map<string, LedgerEntry>
    requires e.TradeEvent?
  {
    ledger[e.tradeId :=
      if e.tradeId in ledger then
        LedgerEntry(MutationOf(e), SelectLatest(ledger[e.tradeId].latestStatus, e.status), ledger[e.tradeId].reconciled)
      else LedgerEntry(MutationOf(e), e.status, false)]
  }

  lemma ReplayRevises(a: Account, s: Replay, e: UserEvent)
    requires Mirrors(a, s) && e.TradeEvent? && !Trips(a, e)
    ensures ReplayTrade(s, e, BaselineOf(a)).Ok?
    ensures ReplayTrade(s, e, BaselineOf(a)).value.ledger == Revised(s.ledger, e)
  {
  }

  lemma RevisionPends(ledger: map<string, LedgerEntry>, e: UserEvent)
    requires e.TradeEvent? && Classify(e.status).Active?
    requires e.tradeId in ledger ==> ledger[e.tradeId].mutation == MutationOf(e) && Classify(ledger[e.tradeId].latestStatus).Active?
    ensures PendingTrades(Revised(ledger, e)) ==
      if IsReconciled(ledger, e.tradeId) then PendingTrades(ledger) else PendingTrades(ledger)[e.tradeId := MutationOf(e)]
  {
    if e.tradeId in ledger {
      LatestStatus(ledger[e.tradeId].latestStatus, e.status);
    }
  }

  /** A revision of a reconciled trade leaves the pending trades and the known ids alone; any other makes it pending. */
  lemma TradePends(a: Account, s: Replay, e: UserEvent)
    requires Mirrors(a, s) && e.TradeEvent? && !Trips(a, e)
    requires ReplayTrade(s, e, BaselineOf(a)).Ok?
    ensures var next := ReplayTrade(s, e, BaselineOf(a)).value;
      if IsReconciled(s.ledger, e.tradeId) then PendingTrades(next.ledger) == PendingTrades(s.ledger) && Ids(e.orderIds) <= s.known
      else PendingTrades(next.ledger) == PendingTrades(s.ledger)[e.tradeId := MutationOf(e)]
  {
    ReplayRevises(a, s, e);
    RevisionPends(s.ledger, e);
    assert e.tradeId in s.ledger ==> s.ledger[e.tradeId].mutation.orderIds <= s.known;
  }

  lemma BaselinesReplayed(a: Account, s: Replay, e: UserEvent)
    requires Mirrors(a, s) && e.TradeEvent? && !Trips(a, e)
    ensures var next := ReplayTrade(s, e, BaselineOf(a)).value;
      Healthy(next) && TradesSince(next, BaselineOf(a)) && OrdersSince(next, BaselineOf(a))
  {
    TradeReplayed(a, s, e);
    if a.pending.None? {
      NothingPending(s);
    }
  }

  lemma MirrorsTrade(a: Account, s: Replay, e: UserEvent)
    requires Mirrors(a, s) && e.TradeEvent? && !Trips(a, e)
    ensures RecordEvent(a, e).1.Ok? && RecordEvent(a, e).0.latched == a.latched
    ensures Mirrors(RecordEvent(a, e).0, ReplayTrade(s, e, BaselineOf(a)).value)
  {
    TradeReplayed(a, s, e);
    TradePends(a, s, e);
    BaselinesReplayed(a, s, e);
    assert !IsReconciled(s.ledger, e.tradeId) ==> e.tradeId in PendingTrades(ReplayTrade(s, e, BaselineOf(a)).value.ledger);
  }

  /** Journaling an event and then recording it keeps the mirror, unless the event trips the latch. */
  lemma EventKeepsMirror(a: Account, records: seq<AccountRecord>, e: UserEvent)
    requires Mirrored(a, records) && RequiresReconciliation(e) && !Trips(a, e)
    ensures RecordEvent(a, e).1.Ok? && RecordEvent(a, e).0.latched == a.latched
    ensures Mirrored(RecordEvent(a, e).0, records + [MutationRecord(e, BaselineOf(a))])
  {
    ReplayAppend(records, MutationRecord(e, BaselineOf(a)));
    if e.OrderEvent? {
      MirrorsOrder(a, ReplayAll(records).value, e);
    } else {
      MirrorsTrade(a, ReplayAll(records).value, e);
    }
  }

  /** Once every pending trade is marked reconciled, none is pending. */
  lemma MarkingSettles(s: Replay, ids: seq<string>)
    requires Healthy(s) && forall t :: t in ids <==> t in PendingTrades(s.ledger)
    ensures var next := ReplayRecord(s, ReconciledRecord(ids)).value;
      && Healthy(next) && next.ledger == MarkReconciled(s.ledger, ids) && PendingTrades(next.ledger) == map[]
      && Unresolved(next) == Unresolved(s) && next.known == s.known
  {
  }

  lemma CommitMarksPending(a: Account)
    requires a.pending.Some? && a.pending.value.trades != map[] && a.pending.value.trades.Keys <= a.ledger.Keys
    ensures var ids := SortedKeys(a.pending.value.trades.Keys);
      Commit(a) == Ok((a.(ledger := MarkReconciled(a.ledger, ids), pending := None), ReconciledRecord(ids)))
  {
    var t :| t in a.pending.value.trades;
    assert t in SortedKeys(a.pending.value.trades.Keys);
  }

  /** A commit keeps the mirror when no order is unresolved, which a completed reconciliation test guarantees. */
  lemma CommitKeepsMirror(a: Account, records: seq<AccountRecord>)
    requires Mirrored(a, records) && a.pending.Some? && a.pending.value.unresolved == {}
    ensures Commit(a).Ok?
    ensures var (after, record) := Commit(a).value;
      Mirrored(after, records + [record])
  {
    var ids := SortedKeys(a.pending.value.trades.Keys);
    CommitMarksPending(a);
    MarkingSettles(ReplayAll(records).value, ids);
    ReplayAppend(records, ReconciledRecord(ids));
  }

  /** Records of other kinds do not concern the account. */
  lemma {:induction false} LifecycleKeepsMirror(a: Account, records: seq<AccountRecord>, n: nat)
    requires Mirrored(a, records)
    ensures Mirrored(a, records + seq(n, _ => OtherRecord))
  {
    var others: seq<AccountRecord> := seq(n, _ => OtherRecord);
    if n == 0 {
      assert records + others == records;
    } else {
      LifecycleKeepsMirror(a, records, n - 1);
      var before := records + seq(n - 1, _ => OtherRecord);
      assert records + others == before + [OtherRecord];
      ReplayAppend(before, OtherRecord);
    }
  }
}
