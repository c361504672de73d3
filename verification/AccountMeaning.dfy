/** What user events, venue trades and audits do to the account and its journal, in terms of the events themselves. */
module AccountMeaning {
  import opened Prelude
  import opened Ordered
  import opened Book
  import opened AccountLedger
  import opened AccountReconciled
  import opened AccountHoldings
  import opened AccountGate
  import opened AccountIngest
  import opened AccountRuns
  import opened AccountSession

  // ----- Order events -----

  ghost predicate UnresolvedOrder(a: Account, id: string) {
    a.pending.Some? && id in a.pending.value.unresolved
  }

  ghost predicate Authoritative(a: Account, id: string) {
    a.pending.Some? && id in a.pending.value.authoritative
  }

  /** The order has traded: its status says matched, or some of it is. */
  ghost predicate Traded(status: string, matched: Option<int>) {
    SameLetters(status, "matched") || exists m :: matched == Some(m) && m > 0
  }

  lemma TradedMeaning(id: string, status: string, matched: Option<int>)
    ensures RequiresReconciliation(OrderEvent(id, status, matched)) <==> Traded(status, matched)
  {
    LettersMeaning(status, "matched");
  }

  /** The baseline a mutation is journaled with: that of the open reconciliation, or the last snapshot. */
  ghost predicate IsBaseline(a: Account, baseline: Snapshot) {
    (forall p | a.pending == Some(p) :: baseline == p.baseline) && (a.pending.None? ==> baseline == a.snapshot)
  }

  /**
   * An order event journals one mutation record exactly when the order has traded. It then opens the reconciliation, and
   * the order is unresolved unless its trades are known; nothing else moves, and without a trade nothing at all.
   */
  lemma OrderEventMeaning(l: Live, id: string, status: string, matched: Option<int>, lifecycle: nat)
    ensures var e := OrderEvent(id, status, matched);
      var d := AccountRuns.Perform(l, User(e, lifecycle));
      var a, b := l.account, d.account;
      && (Traded(status, matched) ==> exists baseline ::
            IsBaseline(a, baseline) && d.records == l.records + [MutationRecord(e, baseline)] + Others(lifecycle))
      && (!Traded(status, matched) ==> d.records == l.records + Others(lifecycle))
      && (!Traded(status, matched) || id in a.known ==> b == a)
      && (UnresolvedOrder(b, id) <==>
            UnresolvedOrder(a, id) || (Traded(status, matched) && id !in a.known && !Authoritative(a, id)))
      && (forall other | other != id :: UnresolvedOrder(b, other) <==> UnresolvedOrder(a, other))
      && (forall other :: Authoritative(b, other) <==> Authoritative(a, other))
      && (Traded(status, matched) && id !in a.known ==>
            b.pending.Some? && IsBaseline(a, b.pending.value.baseline)
            && b.pending.value.trades == if a.pending.Some? then a.pending.value.trades else map[])
      && b == a.(pending := b.pending)
      && RecordEvent(a, e).1 == Ok(Traded(status, matched) && id !in a.known)
  {
    TradedMeaning(id, status, matched);
    var e := OrderEvent(id, status, matched);
    assert l.records + [] == l.records;
    if Traded(status, matched) {
      assert IsBaseline(l.account, BaselineOf(l.account));
    }
  }

  // ----- Trade events -----

  /** The ledger holds the trade with other terms, which is a conflict. */
  ghost predicate Contradicts(a: Account, e: UserEvent)
    requires e.TradeEvent?
  {
    e.tradeId in a.ledger && !SameTerms(a.ledger[e.tradeId].mutation, e)
  }

  ghost predicate PendingTrade(a: Account, t: string) {
    a.pending.Some? && t in a.pending.value.trades
  }

  /** The ledger after a revision: its terms, the later of the two statuses, and whether it was reconciled before. */
  ghost predicate LedgerRevised(a: Account, b: Account, e: UserEvent)
    requires e.TradeEvent?
  {
    && e.tradeId in b.ledger && SameTerms(b.ledger[e.tradeId].mutation, e)
    && b.ledger.Keys == a.ledger.Keys + {e.tradeId}
    && (forall t | t in a.ledger && t != e.tradeId :: b.ledger[t] == a.ledger[t])
    && (e.tradeId !in a.ledger ==> b.ledger[e.tradeId].latestStatus == e.status && !b.ledger[e.tradeId].reconciled)
    && (e.tradeId in a.ledger ==>
          && b.ledger[e.tradeId].reconciled == a.ledger[e.tradeId].reconciled
          && b.ledger[e.tradeId].latestStatus
             == if Rank(e.status) < Rank(a.ledger[e.tradeId].latestStatus) then a.ledger[e.tradeId].latestStatus else e.status)
    && (forall id :: id in b.known <==> id in a.known || id in e.orderIds)
    && (forall id :: id in b.owned <==> id in a.owned || id in e.orderIds)
  }

  /** A trade event is journaled whatever it says. With other terms than the ledger's it latches and is refused. */
  lemma ConflictMeaning(l: Live, e: UserEvent, lifecycle: nat)
    requires e.TradeEvent?
    ensures var d := AccountRuns.Perform(l, User(e, lifecycle));
      && d.records == l.records + [MutationRecord(e, BaselineOf(l.account))] + Others(lifecycle)
      && IsBaseline(l.account, BaselineOf(l.account))
      && (RecordEvent(l.account, e).1.Err? <==> Contradicts(l.account, e))
      && (Contradicts(l.account, e) ==> d.account == l.account.(latched := true))
  {
    if e.tradeId in l.account.ledger {
      TermsMeaning(l.account.ledger[e.tradeId].mutation, e);
    }
  }

  /** An active revision of a trade that has not been reconciled. */
  ghost predicate Pends(a: Account, e: UserEvent)
    requires e.TradeEvent?
  {
    ActiveWord(e.status) && !(e.tradeId in a.ledger && a.ledger[e.tradeId].reconciled)
  }

  lemma NoConflict(a: Account, e: UserEvent)
    requires e.TradeEvent?
    ensures Conflicts(a, e) <==> Contradicts(a, e)
  {
    if e.tradeId in a.ledger {
      TermsMeaning(a.ledger[e.tradeId].mutation, e);
    }
  }

  /**
   * A trade event with the ledger's terms: the ledger takes the revision, the order ids become known and owned, and a status
   * that is not active latches.
   */
  lemma TradeEventMeaning(a: Account, e: UserEvent)
    requires e.TradeEvent? && !Contradicts(a, e)
    ensures var (b, r) := RecordEvent(a, e);
      && LedgerRevised(a, b, e) && b.snapshot == a.snapshot
      && (b.latched <==> a.latched || !ActiveWord(e.status))
      && (!Pends(a, e) ==> b.pending == a.pending)
      && r == Ok(Pends(a, e) || !ActiveWord(e.status))
  {
    hide Classify, Rank, ActiveWord, SameLetters;
    NoConflict(a, e);
    StatusMeaning(e.status);
    TermsMeaning(MutationOf(e), e);
    assert forall id :: id in Ids(e.orderIds) <==> id in e.orderIds;
  }

  /** It is pending with its terms, its order ids are authoritative, and they are no longer unresolved. */
  lemma PendingMeaning(a: Account, e: UserEvent)
    requires e.TradeEvent? && !Contradicts(a, e) && Pends(a, e)
    ensures var b := RecordEvent(a, e).0;
      && b.pending.Some? && IsBaseline(a, b.pending.value.baseline)
      && PendingTrade(b, e.tradeId) && SameTerms(b.pending.value.trades[e.tradeId], e)
      && (forall t | t != e.tradeId :: PendingTrade(b, t) <==> PendingTrade(a, t))
      && (forall t | t != e.tradeId && PendingTrade(a, t) :: b.pending.value.trades[t] == a.pending.value.trades[t])
      && (forall id :: UnresolvedOrder(b, id) <==> UnresolvedOrder(a, id) && id !in e.orderIds)
      && (forall id :: Authoritative(b, id) <==> Authoritative(a, id) || id in e.orderIds)
  {
    hide Classify, Rank, ActiveWord, SameLetters, SelectLatest;
    NoConflict(a, e);
    StatusMeaning(e.status);
    TermsMeaning(MutationOf(e), e);
    assert forall id :: id in Ids(e.orderIds) <==> id in e.orderIds;
  }

  // ----- Venue trades -----

  /** The trade concerns an order that is ours or that waits for its trades. */
  ghost predicate Ours(a: Account, t: RemoteTrade) {
    exists id :: id in t.orderIds && (id in a.owned || UnresolvedOrder(a, id))
  }

  /** It is unknown, known with other terms, or carries another status that does not rank below the known one. */
  ghost predicate TellsNews(a: Account, t: RemoteTrade) {
    || t.tradeId !in a.ledger
    || !Agrees(t, a.ledger[t.tradeId].mutation)
    || (t.status != a.ledger[t.tradeId].latestStatus && Rank(t.status) >= Rank(a.ledger[t.tradeId].latestStatus))
  }

  lemma NewsMeaning(a: Account, t: RemoteTrade)
    ensures News(t, a.ledger) <==> TellsNews(a, t)
    ensures Selects(t, WatchedIds(a), a.ledger) <==> Ours(a, t) && TellsNews(a, t)
  {
    if t.tradeId in a.ledger {
      TermsMeaning(a.ledger[t.tradeId].mutation, EventOf(t));
    }
    var both := Ids(t.orderIds) * WatchedIds(a);
    if id :| id in both {
      assert id in t.orderIds && (id in a.owned || UnresolvedOrder(a, id));
    }
    if id :| id in t.orderIds && (id in a.owned || UnresolvedOrder(a, id)) {
      assert id in both;
    }
  }

  /** Exactly the venue's trades that are ours and tell something new are ingested, as they came. */
  lemma IngestedMeaning(a: Account, remote: RemoteTrades, e: UserEvent)
    ensures e in EventsToIngest(a, remote) <==>
      exists k :: k in remote && Ours(a, remote[k]) && TellsNews(a, remote[k]) && e == CopyOf(remote[k])
  {
    EventsToIngestMembers(a, remote);
    forall k | k in remote
      ensures Selects(remote[k], WatchedIds(a), a.ledger) <==> Ours(a, remote[k]) && TellsNews(a, remote[k])
      ensures EventOf(remote[k]) == CopyOf(remote[k])
    {
      NewsMeaning(a, remote[k]);
    }
  }

  ghost function CopyOf(t: RemoteTrade): UserEvent {
    TradeEvent(t.tradeId, t.assetId, t.side, t.price, t.size, t.status, t.orderIds)
  }

  // ----- Audits -----

  /** The audit's ingest went through and left the account unlatched with trades to reconcile. */
  ghost predicate Auditable(l: Live, remote: RemoteTrades) {
    && Ingest(l.account, l.records, remote).2.Ok?
    && !Ingest(l.account, l.records, remote).0.latched && Ingest(l.account, l.records, remote).0.pending.Some?
  }

  /** The session after the audit's ingest. */
  ghost function Ingested(l: Live, remote: RemoteTrades): Live {
    Live(Ingest(l.account, l.records, remote).0, Ingest(l.account, l.records, remote).1)
  }

  /** What an audit does when its ingest leaves nothing to reconcile. */
  lemma AuditObserves(l: Live, current: Snapshot, remote: RemoteTrades)
    requires !Auditable(l, remote)
    ensures var m, d := Ingested(l, remote), Audit(l, current, remote);
      d.records == m.records
      && d.account == if Ingest(l.account, l.records, remote).2.Err? || m.account.latched then m.account.(latched := true)
                      else m.account.(snapshot := current)
  {
  }

  lemma CommitMeaning(m: Live, current: Snapshot, proof: TradeProof)
    requires m.account.pending.Some? && Reconciled(m.account.pending.value, current, proof) == Ok(true)
    requires exists t :: t in m.account.pending.value.trades
    ensures var trades := m.account.pending.value.trades;
      var d := CommitIfReconciled(m, current, proof);
      if trades.Keys <= m.account.ledger.Keys then Committed(m, current, d) else d == m.(account := m.account.(snapshot := current))
  {
    hide Reconciled;
    var trades := m.account.pending.value.trades;
    var ids := SortedKeys(trades.Keys);
    assert forall t :: t in ids <==> t in trades;
    assert ids != [];
  }

  /**
   * Otherwise, with totals that leave room in 128 bits: without a fee proof it latches; when the snapshot reflects the pending
   * trades it commits them all, if the ledger holds them, and takes the snapshot; and when not it changes nothing more.
   */
  lemma AuditReconciles(l: Live, current: Snapshot, remote: RemoteTrades)
    requires Auditable(l, remote)
    requires var p := Ingested(l, remote).account.pending.value;
      AuthoritativeProof(p, remote).Ok? ==> FitsRange(p, current, AuthoritativeProof(p, remote).value)
    ensures var m, d := Ingested(l, remote), Audit(l, current, remote);
      var p := m.account.pending.value;
      var proof := AuthoritativeProof(p, remote);
      if proof.Err? then d == m.(account := m.account.(latched := true))
      else if !Reflected(p, current, proof.value) then d == m
      else if p.trades.Keys <= m.account.ledger.Keys then Committed(m, current, d)
      else d == m.(account := m.account.(snapshot := current))
  {
    hide Ingest, Reflected, FitsRange, Reconciled, AuthoritativeProof, Commit, Committed;
    var m := Ingested(l, remote);
    var p := m.account.pending.value;
    if AuthoritativeProof(p, remote).Ok? {
      var proof := AuthoritativeProof(p, remote).value;
      ReconciledComplete(p, current, proof);
      if Reflected(p, current, proof) {
        ReflectedHasTrades(p, current, proof);
        CommitMeaning(m, current, proof);
      }
    }
  }

  lemma ReflectedHasTrades(p: Pending, current: Snapshot, proof: TradeProof)
    requires Reflected(p, current, proof)
    ensures exists t :: t in p.trades
  {
    assert p.trades.Keys != {};
  }

  /** All pending trades are marked reconciled, in the ledger and by one record, and the snapshot is the new one. */
  ghost predicate Committed(m: Live, current: Snapshot, d: Live)
    requires m.account.pending.Some?
  {
    var trades := m.account.pending.value.trades;
    && d.account.pending.None? && d.account.snapshot == current && d.account.ledger.Keys == m.account.ledger.Keys
    && (forall t | t in m.account.ledger :: d.account.ledger[t]
          == if t in trades then m.account.ledger[t].(reconciled := true) else m.account.ledger[t])
    && d.account == m.account.(pending := None, snapshot := current, ledger := d.account.ledger)
    && exists ids :: d.records == m.records + [ReconciledRecord(ids)] && forall t :: t in ids <==> t in trades
  }
}
