/** When a journal recovers, and what it recovers to, in terms of its records and whatever wrote them. */
module AccountReplayed {
  import opened Prelude
  import opened Ordered
  import opened AccountLedger
  import opened AccountRecovery

  // ----- What the records say -----

  ghost predicate TradeRecord(r: AccountRecord, t: string) {
    r.MutationRecord? && r.event.TradeEvent? && r.event.tradeId == t
  }

  ghost predicate OrderRecord(r: AccountRecord, o: string) {
    r.MutationRecord? && r.event.OrderEvent? && r.event.orderId == o
  }

  ghost predicate Traded(records: seq<AccountRecord>, t: string) {
    exists r | r in records :: TradeRecord(r, t)
  }

  ghost predicate Reported(records: seq<AccountRecord>, o: string) {
    exists r | r in records :: OrderRecord(r, o)
  }

  /** Some journaled trade belongs to this order. */
  ghost predicate Named(records: seq<AccountRecord>, o: string) {
    exists r | r in records :: r.MutationRecord? && r.event.TradeEvent? && o in r.event.orderIds
  }

  ghost predicate Settled(records: seq<AccountRecord>, t: string) {
    exists r | r in records :: r.ReconciledRecord? && t in r.tradeIds
  }

  ghost predicate Failing(records: seq<AccountRecord>, t: string) {
    exists r | r in records :: TradeRecord(r, t) && !ActiveWord(r.event.status)
  }

  /** Journaled, never settled, and in no revision failed or unknown. */
  ghost predicate Pends(records: seq<AccountRecord>, t: string) {
    Traded(records, t) && !Settled(records, t) && !Failing(records, t)
  }

  /** Reported, and no journaled trade belongs to it. */
  ghost predicate Open(records: seq<AccountRecord>, o: string) {
    Reported(records, o) && !Named(records, o)
  }

  ghost predicate Readable(r: AccountRecord) {
    !r.MalformedRecord? && (r.MutationRecord? ==> !r.event.Disconnect?)
  }

  ghost predicate SameTrade(e: UserEvent, f: UserEvent)
    requires e.TradeEvent? && f.TradeEvent?
  {
    && e.assetId == f.assetId && e.side == f.side && e.price == f.price && e.size == f.size
    && forall id :: id in e.orderIds <==> id in f.orderIds
  }

  /** Revisions of one trade agree in everything but the status. */
  ghost predicate Agreeing(r: AccountRecord, q: AccountRecord) {
    forall t | TradeRecord(r, t) && TradeRecord(q, t) :: SameTrade(r.event, q.event)
  }

  ghost predicate Replayable(records: seq<AccountRecord>) {
    && (forall r | r in records :: Readable(r))
    && (forall r, q | r in records && q in records :: Agreeing(r, q))
  }

  ghost predicate FirstTrade(records: seq<AccountRecord>, i: nat, t: string) {
    i < |records| && TradeRecord(records[i], t) && forall j: nat | j < i :: !TradeRecord(records[j], t)
  }

  ghost predicate FirstOrder(records: seq<AccountRecord>, i: nat, o: string) {
    i < |records| && OrderRecord(records[i], o) && forall j: nat | j < i :: !OrderRecord(records[j], o)
  }

  /** The revision of the highest rank, and the last of these. */
  ghost predicate Highest(records: seq<AccountRecord>, i: nat, t: string) {
    && i < |records| && TradeRecord(records[i], t)
    && forall j: nat | j < |records| && TradeRecord(records[j], t) ::
      Rank(records[j].event.status) < Rank(records[i].event.status)
      || (j <= i && Rank(records[j].event.status) == Rank(records[i].event.status))
  }

  ghost predicate HasStatus(records: seq<AccountRecord>, t: string, status: string) {
    exists i: nat :: Highest(records, i, t) && records[i].event.status == status
  }

  // ----- The ledger -----

  ghost predicate LedgerOf(records: seq<AccountRecord>, ledger: map<string, LedgerEntry>) {
    && (forall t :: t in ledger <==> Traded(records, t))
    && (forall t | t in ledger :: ledger[t].reconciled <==> Settled(records, t))
    && (forall t | t in ledger :: HasStatus(records, t, ledger[t].latestStatus))
    && (forall r, t | r in records && t in ledger && TradeRecord(r, t) :: SameTerms(ledger[t].mutation, r.event))
  }

  // ----- The first pass -----

  /** The ids collected on the way. */
  ghost predicate Collected(records: seq<AccountRecord>, s: Replay) {
    && (forall t :: t in s.reconciledIds <==> Settled(records, t))
    && (forall o :: o in s.known <==> Named(records, o))
    && s.tradeBaselines.Keys == s.ledger.Keys
    && (forall o :: o in s.orderBaselines <==> Reported(records, o))
  }

  ghost predicate FirstBaselines(records: seq<AccountRecord>, s: Replay) {
    && (forall i: nat, t | FirstTrade(records, i, t) :: t in s.tradeBaselines && s.tradeBaselines[t] == records[i].baseline)
    && (forall i: nat, o | FirstOrder(records, i, o) :: o in s.orderBaselines && s.orderBaselines[o] == records[i].baseline)
  }

  lemma Appended(records: seq<AccountRecord>, r: AccountRecord)
    ensures forall t :: Traded(records + [r], t) <==> Traded(records, t) || TradeRecord(r, t)
    ensures forall o :: Reported(records + [r], o) <==> Reported(records, o) || OrderRecord(r, o)
    ensures forall t :: Settled(records + [r], t) <==> Settled(records, t) || (r.ReconciledRecord? && t in r.tradeIds)
    ensures forall o :: Named(records + [r], o) <==>
      Named(records, o) || (r.MutationRecord? && r.event.TradeEvent? && o in r.event.orderIds)
    ensures forall t :: Failing(records + [r], t) <==> Failing(records, t) || (TradeRecord(r, t) && !ActiveWord(r.event.status))
  {
    var longer := records + [r];
    assert forall q :: q in longer <==> q in records || q == r;
    hide ActiveWord;
    forall t
      ensures Traded(longer, t) <==> Traded(records, t) || TradeRecord(r, t)
      ensures Failing(longer, t) <==> Failing(records, t) || (TradeRecord(r, t) && !ActiveWord(r.event.status))
      ensures Settled(longer, t) <==> Settled(records, t) || (r.ReconciledRecord? && t in r.tradeIds)
    {
      assert TradeRecord(r, t) ==> r in longer;
      assert r.ReconciledRecord? && t in r.tradeIds ==> r in longer;
    }
    forall o
      ensures Reported(longer, o) <==> Reported(records, o) || OrderRecord(r, o)
      ensures Named(longer, o) <==> Named(records, o) || (r.MutationRecord? && r.event.TradeEvent? && o in r.event.orderIds)
    {
      assert OrderRecord(r, o) ==> r in longer;
    }
  }

  lemma CollectedStep(records: seq<AccountRecord>, s: Replay, r: AccountRecord)
    requires Collected(records, s) && ReplayRecord(s, r).Ok?
    ensures Collected(records + [r], ReplayRecord(s, r).value)
  {
    hide Traded, Reported, Named, Settled, Failing, Rank, Classify;
    Appended(records, r);
    assert r.ReconciledRecord? ==> MarkReconciled(s.ledger, r.tradeIds).Keys == s.ledger.Keys;
  }

  lemma FirstTradeAppended(records: seq<AccountRecord>, r: AccountRecord, i: nat, t: string)
    requires FirstTrade(records + [r], i, t)
    ensures i < |records| ==> FirstTrade(records, i, t) && (records + [r])[i] == records[i]
    ensures i == |records| ==> TradeRecord(r, t) && !Traded(records, t)
  {
    var longer := records + [r];
    assert forall j | 0 <= j < |records| :: longer[j] == records[j];
    if i == |records| {
      forall q | q in records ensures !TradeRecord(q, t) {
        var j: nat :| j < |records| && records[j] == q;
        assert longer[j] == q;
      }
    }
  }

  lemma FirstOrderAppended(records: seq<AccountRecord>, r: AccountRecord, i: nat, o: string)
    requires FirstOrder(records + [r], i, o)
    ensures i < |records| ==> FirstOrder(records, i, o) && (records + [r])[i] == records[i]
    ensures i == |records| ==> OrderRecord(r, o) && !Reported(records, o)
  {
    var longer := records + [r];
    assert forall j | 0 <= j < |records| :: longer[j] == records[j];
    if i == |records| {
      forall q | q in records ensures !OrderRecord(q, o) {
        var j: nat :| j < |records| && records[j] == q;
        assert longer[j] == q;
      }
    }
  }

  lemma BaselinesStep(records: seq<AccountRecord>, s: Replay, r: AccountRecord)
    requires Collected(records, s) && FirstBaselines(records, s) && ReplayRecord(s, r).Ok?
    requires forall t :: t in s.ledger <==> Traded(records, t)
    ensures FirstBaselines(records + [r], ReplayRecord(s, r).value)
  {
    hide Traded, Reported, Named, Settled, MarkReconciled;
    var longer, next := records + [r], ReplayRecord(s, r).value;
    forall i: nat, t | FirstTrade(longer, i, t)
      ensures t in next.tradeBaselines && next.tradeBaselines[t] == longer[i].baseline
    {
      FirstTradeAppended(records, r, i, t);
    }
    forall i: nat, o | FirstOrder(longer, i, o)
      ensures o in next.orderBaselines && next.orderBaselines[o] == longer[i].baseline
    {
      FirstOrderAppended(records, r, i, o);
    }
  }

  lemma HighestAppended(records: seq<AccountRecord>, r: AccountRecord, t: string, status: string)
    requires HasStatus(records, t, status)
    ensures !TradeRecord(r, t) ==> HasStatus(records + [r], t, status)
    ensures TradeRecord(r, t) ==> HasStatus(records + [r], t, SelectLatest(status, r.event.status))
  {
    hide Rank;
    var longer := records + [r];
    assert forall j | 0 <= j < |records| :: longer[j] == records[j];
    var i: nat :| Highest(records, i, t) && records[i].event.status == status;
    if TradeRecord(r, t) && Rank(r.event.status) >= Rank(status) {
      assert Highest(longer, |records|, t);
    } else {
      assert Highest(longer, i, t);
    }
  }

  lemma HighestFirst(records: seq<AccountRecord>, r: AccountRecord, t: string)
    requires !Traded(records, t) && TradeRecord(r, t)
    ensures HasStatus(records + [r], t, r.event.status)
  {
    hide Rank;
    var longer := records + [r];
    assert forall j | 0 <= j < |records| :: longer[j] == records[j] && records[j] in records;
    assert Highest(longer, |records|, t);
  }

  lemma LedgerStep(records: seq<AccountRecord>, s: Replay, r: AccountRecord)
    requires Collected(records, s) && LedgerOf(records, s.ledger) && ReplayRecord(s, r).Ok?
    ensures LedgerOf(records + [r], ReplayRecord(s, r).value.ledger)
  {
    hide Traded, Reported, Named, Settled, Failing, HasStatus, SelectLatest, Classify, Rank;
    var longer, next := records + [r], ReplayRecord(s, r).value;
    Appended(records, r);
    assert forall q :: q in longer <==> q in records || q == r;
    forall t | t in next.ledger ensures HasStatus(longer, t, next.ledger[t].latestStatus) {
      if t in s.ledger {
        HighestAppended(records, r, t, s.ledger[t].latestStatus);
      } else {
        HighestFirst(records, r, t);
      }
    }
    TermsStep(records, s, r);
  }

  lemma TermsStep(records: seq<AccountRecord>, s: Replay, r: AccountRecord)
    requires LedgerOf(records, s.ledger) && ReplayRecord(s, r).Ok?
    ensures var after := ReplayRecord(s, r).value.ledger;
      forall q, t | q in records + [r] && t in after && TradeRecord(q, t) :: SameTerms(after[t].mutation, q.event)
  {
    hide Settled, HasStatus, Failing, SelectLatest, Classify, Rank, SameTerms;
    var after := ReplayRecord(s, r).value.ledger;
    forall q, t | q in records + [r] && t in after && TradeRecord(q, t) ensures SameTerms(after[t].mutation, q.event) {
      if q == r {
        TermsMeaning(after[t].mutation, r.event);
      } else {
        assert Traded(records, t);
      }
    }
  }

  lemma StepDecided(records: seq<AccountRecord>, s: Replay, r: AccountRecord)
    requires LedgerOf(records, s.ledger)
    ensures ReplayRecord(s, r).Ok? <==> Readable(r) && forall q | q in records :: Agreeing(r, q)
  {
    hide Settled, HasStatus, Failing, SelectLatest, Classify, Rank;
    if r.MutationRecord? && r.event.TradeEvent? {
      var t := r.event.tradeId;
      forall q | q in records ensures TradeRecord(q, t) ==> t in s.ledger && SameTerms(s.ledger[t].mutation, q.event) {
        assert TradeRecord(q, t) ==> Traded(records, t);
      }
      if t in s.ledger {
        TermsMeaning(s.ledger[t].mutation, r.event);
        var q :| q in records && TradeRecord(q, t);
        assert Agreeing(r, q) ==> SameTrade(r.event, q.event);
      }
    }
  }

  lemma ReplayableAppended(records: seq<AccountRecord>, r: AccountRecord)
    ensures Replayable(records + [r]) <==> Replayable(records) && Readable(r) && forall q | q in records :: Agreeing(r, q)
  {
    var longer := records + [r];
    assert forall q :: q in longer <==> q in records || q == r;
    forall q, t | TradeRecord(q, t) && TradeRecord(r, t) ensures SameTrade(q.event, r.event) <==> SameTrade(r.event, q.event) {
    }
    assert forall q :: Agreeing(r, q) <==> Agreeing(q, r);
  }

  lemma NothingReplayed()
    ensures Replayable([]) && Collected([], NOTHING_REPLAYED) && FirstBaselines([], NOTHING_REPLAYED) && LedgerOf([], map[])
  {
  }

  /** The first pass reads a journal exactly when it is replayable, and collects just what the records say. */
  lemma {:induction false} FirstPass(records: seq<AccountRecord>)
    ensures ReplayAll(records).Ok? <==> Replayable(records)
    ensures ReplayAll(records).Ok? ==>
      var s := ReplayAll(records).value;
      Collected(records, s) && FirstBaselines(records, s) && LedgerOf(records, s.ledger)
    decreases |records|
  {
    hide ReplayRecord, Replayable, Collected, FirstBaselines, LedgerOf, Readable, Agreeing;
    if records == [] {
      NothingReplayed();
    } else {
      var rest, last := records[..|records| - 1], records[|records| - 1];
      assert records == rest + [last];
      FirstPass(rest);
      ReplayableAppended(rest, last);
      if ReplayAll(rest).Ok? {
        var s := ReplayAll(rest).value;
        StepDecided(rest, s, last);
        if ReplayRecord(s, last).Ok? {
          CollectedStep(rest, s, last);
          BaselinesOf(rest, s, last);
          LedgerStep(rest, s, last);
        }
      }
    }
  }

  lemma BaselinesOf(records: seq<AccountRecord>, s: Replay, r: AccountRecord)
    requires Collected(records, s) && FirstBaselines(records, s) && LedgerOf(records, s.ledger) && ReplayRecord(s, r).Ok?
    ensures FirstBaselines(records + [r], ReplayRecord(s, r).value)
  {
    hide Collected, FirstBaselines, ReplayRecord;
    BaselinesStep(records, s, r);
  }

  // ----- The baselines -----

  /** A baseline without its times, marks and counts: the balance, and the size and average price of every row. */
  ghost function Essence(s: Snapshot): Snapshot {
    var rows := seq(|s.positions|, i requires 0 <= i < |s.positions| => s.positions[i].(currentValue := 0, cashPnl := 0));
    Snapshot(0, s.collateral, 0, rows, 0)
  }

  lemma EssenceMeaning(left: Snapshot, right: Snapshot)
    ensures BaselinesMatch(left, right) <==> Essence(left) == Essence(right)
  {
    if Essence(left) == Essence(right) {
      forall i | 0 <= i < |left.positions|
        ensures |left.positions| == |right.positions|
        ensures left.positions[i].(currentValue := 0, cashPnl := 0) == right.positions[i].(currentValue := 0, cashPnl := 0)
      {
        assert Essence(left).positions[i] == Essence(right).positions[i];
      }
    }
  }

  function MergeAll(target: Option<Snapshot>, candidates: seq<Snapshot>): Result<Option<Snapshot>>
    decreases |candidates|
  {
    if candidates == [] then Ok(target)
    else
      var merged :- MergeBaseline(target, candidates[0]);
      MergeAll(merged, candidates[1..])
  }

  ghost predicate AllAgree(snapshots: seq<Snapshot>) {
    forall b, c | b in snapshots && c in snapshots :: Essence(b) == Essence(c)
  }

  lemma {:induction false} MergeAllDecided(target: Option<Snapshot>, candidates: seq<Snapshot>)
    ensures var all := (if target.Some? then [target.value] else []) + candidates;
      && (MergeAll(target, candidates).Ok? <==> AllAgree(all))
      && (AllAgree(all) ==> MergeAll(target, candidates) == Ok(if all == [] then None else Some(all[0])))
    decreases |candidates|
  {
    hide Essence, BaselinesMatch;
    var all := (if target.Some? then [target.value] else []) + candidates;
    if candidates != [] {
      var c, rest := candidates[0], candidates[1..];
      assert candidates == [c] + rest;
      if target.None? {
        MergeAllDecided(Some(c), rest);
        assert [c] + rest == all;
      } else {
        var b := target.value;
        EssenceMeaning(b, c);
        MergeAllDecided(target, rest);
        assert forall x :: x in all <==> x == b || x == c || x in rest;
        assert forall x :: x in [b] + rest <==> x == b || x in rest;
      }
    }
  }

  lemma {:induction false} MergeAllSplit(target: Option<Snapshot>, xs: seq<Snapshot>, ys: seq<Snapshot>)
    ensures MergeAll(target, xs + ys)
      == var first := MergeAll(target, xs); if first.Ok? then MergeAll(first.value, ys) else first
    decreases |xs|
  {
    if xs == [] {
      assert xs + ys == ys;
    } else {
      assert (xs + ys)[1..] == xs[1..] + ys;
      var merged := MergeBaseline(target, xs[0]);
      if merged.Ok? {
        MergeAllSplit(merged.value, xs[1..], ys);
      }
    }
  }

  ghost function TradeCandidates(keys: seq<string>, s: Replay): seq<Snapshot>
    requires forall k | k in keys :: k in s.ledger && k in s.tradeBaselines
  {
    if keys == [] then []
    else (if IsPending(s.ledger[keys[0]]) then [s.tradeBaselines[keys[0]]] else []) + TradeCandidates(keys[1..], s)
  }

  ghost function OrderCandidates(keys: seq<string>, s: Replay): seq<Snapshot>
    requires forall k | k in keys :: k in s.orderBaselines
  {
    seq(|keys|, i requires 0 <= i < |keys| => s.orderBaselines[keys[i]])
  }

  lemma {:induction false} TradesMerge(target: Option<Snapshot>, keys: seq<string>, s: Replay)
    requires forall k | k in keys :: k in s.ledger && k in s.tradeBaselines
    ensures MergeTrades(target, keys, s) == MergeAll(target, TradeCandidates(keys, s))
    ensures forall b :: b in TradeCandidates(keys, s) <==> exists k | k in keys && IsPending(s.ledger[k]) :: s.tradeBaselines[k] == b
    decreases |keys|
  {
    hide MergeBaseline, IsPending;
    if keys != [] {
      var k, rest := keys[0], keys[1..];
      assert forall x :: x in keys <==> x == k || x in rest;
      if IsPending(s.ledger[k]) {
        var candidates := TradeCandidates(keys, s);
        assert candidates[1..] == TradeCandidates(rest, s);
        var merged := MergeBaseline(target, s.tradeBaselines[k]);
        TradesMerge(if merged.Ok? then merged.value else target, rest, s);
      } else {
        assert TradeCandidates(keys, s) == TradeCandidates(rest, s);
        TradesMerge(target, rest, s);
      }
    }
  }

  lemma {:induction false} OrdersMerge(target: Option<Snapshot>, keys: seq<string>, s: Replay)
    requires forall k | k in keys :: k in s.orderBaselines
    ensures MergeOrders(target, keys, s) == MergeAll(target, OrderCandidates(keys, s))
    decreases |keys|
  {
    hide MergeBaseline;
    if keys != [] {
      var rest := keys[1..];
      assert OrderCandidates(keys, s)[1..] == OrderCandidates(rest, s);
      var merged := MergeBaseline(target, s.orderBaselines[keys[0]]);
      if merged.Ok? {
        OrdersMerge(merged.value, rest, s);
      }
    }
  }

  // ----- The second pass -----

  lemma FirstTradeExists(records: seq<AccountRecord>, t: string) returns (i: nat)
    requires Traded(records, t)
    ensures FirstTrade(records, i, t)
  {
    i := 0;
    while !TradeRecord(records[i], t)
      invariant i <= |records| && forall j: nat | j < i :: !TradeRecord(records[j], t)
      invariant exists j | i <= j < |records| :: TradeRecord(records[j], t)
      decreases |records| - i
    {
      i := i + 1;
    }
  }

  lemma FirstOrderExists(records: seq<AccountRecord>, o: string) returns (i: nat)
    requires Reported(records, o)
    ensures FirstOrder(records, i, o)
  {
    i := 0;
    while !OrderRecord(records[i], o)
      invariant i <= |records| && forall j: nat | j < i :: !OrderRecord(records[j], o)
      invariant exists j | i <= j < |records| :: OrderRecord(records[j], o)
      decreases |records| - i
    {
      i := i + 1;
    }
  }

  lemma StatusSaysFailing(records: seq<AccountRecord>, t: string, status: string)
    requires HasStatus(records, t, status)
    ensures Classify(status).Active? <==> !Failing(records, t)
  {
    hide ActiveWord, Rank, Classify;
    RankOfClass(status);
    var i: nat :| Highest(records, i, t) && records[i].event.status == status;
    StatusMeaning(status);
    assert records[i] in records;
    forall r | r in records && TradeRecord(r, t) ensures Classify(status).Active? ==> ActiveWord(r.event.status) {
      var j: nat :| j < |records| && records[j] == r;
      RankOfClass(r.event.status);
      StatusMeaning(r.event.status);
    }
  }

  lemma FailingIsTraded(records: seq<AccountRecord>, t: string)
    requires Failing(records, t)
    ensures Traded(records, t)
  {
  }

  lemma PendingMeaning(records: seq<AccountRecord>, ledger: map<string, LedgerEntry>)
    requires LedgerOf(records, ledger)
    ensures forall t | t in ledger :: IsPending(ledger[t]) <==> Pends(records, t)
    ensures SomeInactive(ledger) <==> exists t :: Failing(records, t)
  {
    hide Traded, Settled, Failing, HasStatus, Classify, SameTerms;
    forall t | t in ledger ensures Classify(ledger[t].latestStatus).Active? <==> !Failing(records, t) {
      StatusSaysFailing(records, t, ledger[t].latestStatus);
    }
    forall t | Failing(records, t) ensures t in ledger {
      FailingIsTraded(records, t);
    }
  }

  /** The baseline journaled first for a trade. */
  ghost predicate TradeBaseline(records: seq<AccountRecord>, t: string, b: Snapshot) {
    exists i: nat :: FirstTrade(records, i, t) && records[i].baseline == b
  }

  ghost predicate OrderBaseline(records: seq<AccountRecord>, o: string, b: Snapshot) {
    exists i: nat :: FirstOrder(records, i, o) && records[i].baseline == b
  }

  /** A baseline that counts: that of a trade that pends, or of an order that is open. */
  ghost predicate Needed(records: seq<AccountRecord>, b: Snapshot) {
    (exists t :: Pends(records, t) && TradeBaseline(records, t, b)) || (exists o :: Open(records, o) && OrderBaseline(records, o, b))
  }

  lemma BaselinesKept(records: seq<AccountRecord>, s: Replay)
    requires Collected(records, s) && FirstBaselines(records, s) && LedgerOf(records, s.ledger)
    ensures forall t, b | t in s.ledger :: TradeBaseline(records, t, b) <==> s.tradeBaselines[t] == b
    ensures forall o, b | o in s.orderBaselines :: OrderBaseline(records, o, b) <==> s.orderBaselines[o] == b
  {
    hide Traded, Reported, Settled, Named, HasStatus, SameTerms;
    forall t | t in s.ledger ensures TradeBaseline(records, t, s.tradeBaselines[t]) {
      var i := FirstTradeExists(records, t);
    }
    forall o | o in s.orderBaselines ensures OrderBaseline(records, o, s.orderBaselines[o]) {
      var i := FirstOrderExists(records, o);
    }
  }

  ghost function Candidates(s: Replay): seq<Snapshot>
    requires s.tradeBaselines.Keys == s.ledger.Keys
  {
    TradeCandidates(SortedKeys(s.ledger.Keys), s) + OrderCandidates(SortedKeys(Unresolved(s)), s)
  }

  lemma CandidatesMerge(s: Replay)
    requires s.tradeBaselines.Keys == s.ledger.Keys
    ensures Baseline(s) == MergeAll(None, Candidates(s))
  {
    hide TradeCandidates, OrderCandidates, MergeAll, MergeTrades, MergeOrders;
    var trades, orders := SortedKeys(s.ledger.Keys), SortedKeys(Unresolved(s));
    TradesMerge(None, trades, s);
    var merged := MergeTrades(None, trades, s);
    MergeAllSplit(None, TradeCandidates(trades, s), OrderCandidates(orders, s));
    if merged.Ok? {
      OrdersMerge(merged.value, orders, s);
    }
  }

  lemma CandidatesMeaning(records: seq<AccountRecord>, s: Replay)
    requires Collected(records, s) && FirstBaselines(records, s) && LedgerOf(records, s.ledger)
    ensures forall b :: b in Candidates(s) <==> Needed(records, b)
  {
    hide Traded, Reported, Named, Settled, Failing, HasStatus, IsPending, SameTerms, TradeBaseline, OrderBaseline, FirstBaselines;
    hide TradeCandidates, MergeAll, MergeTrades;
    var trades, orders := SortedKeys(s.ledger.Keys), SortedKeys(Unresolved(s));
    BaselinesKept(records, s);
    PendingMeaning(records, s.ledger);
    TradesMerge(None, trades, s);
    forall b ensures b in OrderCandidates(orders, s) <==> exists o | o in orders :: s.orderBaselines[o] == b {
      if o :| o in orders && s.orderBaselines[o] == b {
        var n: nat :| n < |orders| && orders[n] == o;
        assert OrderCandidates(orders, s)[n] == b;
      }
    }
    forall b ensures b in Candidates(s) ==> Needed(records, b) {
      if t :| t in trades && IsPending(s.ledger[t]) && s.tradeBaselines[t] == b {
        assert Pends(records, t) && TradeBaseline(records, t, b);
      }
      if o :| o in orders && s.orderBaselines[o] == b {
        assert Open(records, o) && OrderBaseline(records, o, b);
      }
    }
    forall b | Needed(records, b) ensures b in Candidates(s) {
      if t :| Pends(records, t) && TradeBaseline(records, t, b) {
        assert t in trades && IsPending(s.ledger[t]);
      } else {
        var o :| Open(records, o) && OrderBaseline(records, o, b);
        assert o in orders;
      }
    }
  }

  // ----- The recovery -----

  ghost predicate NeededAgree(records: seq<AccountRecord>) {
    forall b, c | Needed(records, b) && Needed(records, c) :: Essence(b) == Essence(c)
  }

  /**
   * Every record readable, revisions of one trade alike, nothing settled that was never journaled, and one baseline, but
   * for marks and times, under everything that pends.
   */
  ghost predicate Recoverable(records: seq<AccountRecord>) {
    && Replayable(records)
    && (forall t | Settled(records, t) :: Traded(records, t))
    && NeededAgree(records)
  }

  ghost predicate PendingOf(records: seq<AccountRecord>, ledger: map<string, LedgerEntry>, p: Pending) {
    && (forall t :: t in p.trades <==> Pends(records, t))
    && (forall t | t in p.trades :: t in ledger && p.trades[t] == ledger[t].mutation)
    && (forall o :: o in p.unresolved <==> Open(records, o))
    && (forall o :: o in p.authoritative <==> Named(records, o))
    && Needed(records, p.baseline)
    && (forall b | Needed(records, b) :: Essence(b) == Essence(p.baseline))
  }

  ghost predicate Rebuilt(records: seq<AccountRecord>, v: Recovered) {
    && LedgerOf(records, v.ledger)
    && (forall o :: o in v.known <==> Named(records, o))
    && (v.safetyLatched <==> exists t :: Failing(records, t))
    && (v.pending.None? <==> (forall t :: !Pends(records, t)) && (forall o :: !Open(records, o)))
    && (v.pending.Some? ==> PendingOf(records, v.ledger, v.pending.value))
  }

  lemma MergedMeaning(records: seq<AccountRecord>, s: Replay)
    requires Collected(records, s) && FirstBaselines(records, s) && LedgerOf(records, s.ledger)
    ensures Baseline(s).Ok? <==> NeededAgree(records)
    ensures Baseline(s).Ok? && Baseline(s).value.None? ==> forall b :: !Needed(records, b)
    ensures Baseline(s).Ok? && Baseline(s).value.Some? ==> Needed(records, Baseline(s).value.value)
  {
    hide FirstBaselines, LedgerOf, Needed, Essence, Candidates, MergeAll, Baseline;
    var all := Candidates(s);
    CandidatesMeaning(records, s);
    CandidatesMerge(s);
    MergeAllDecided(None, all);
    assert [] + all == all;
  }

  lemma FinishMeaning(records: seq<AccountRecord>, s: Replay)
    requires Collected(records, s) && FirstBaselines(records, s) && LedgerOf(records, s.ledger)
    ensures Finish(s).Ok? <==> (forall t | Settled(records, t) :: Traded(records, t)) && NeededAgree(records)
    ensures Finish(s).Ok? ==> Rebuilt(records, Finish(s).value)
  {
    hide Traded, Reported, Named, Settled, Failing, HasStatus, SameTerms, Needed, FirstBaselines;
    hide IsPending, SomeInactive, Essence, Baseline;
    MergedMeaning(records, s);
    PendingMeaning(records, s.ledger);
    PendsNeeded(records, s);
    assert forall t :: t in PendingTrades(s.ledger) <==> Pends(records, t);
    assert forall o :: o in Unresolved(s) <==> Open(records, o);
  }

  /** Something pends exactly when some baseline counts. */
  lemma PendsNeeded(records: seq<AccountRecord>, s: Replay)
    requires Collected(records, s) && FirstBaselines(records, s) && LedgerOf(records, s.ledger)
    ensures (exists b :: Needed(records, b)) <==> (exists t :: Pends(records, t)) || (exists o :: Open(records, o))
  {
    hide Traded, Reported, Named, Settled, Failing, HasStatus, SameTerms, TradeBaseline, OrderBaseline, FirstBaselines;
    BaselinesKept(records, s);
    if t :| Pends(records, t) {
      assert TradeBaseline(records, t, s.tradeBaselines[t]);
      assert Needed(records, s.tradeBaselines[t]);
    }
    if o :| Open(records, o) {
      assert OrderBaseline(records, o, s.orderBaselines[o]);
      assert Needed(records, s.orderBaselines[o]);
    }
  }

  /** Exactly which journals recover, and to what. */
  lemma RecoverMeaning(records: seq<AccountRecord>)
    ensures Recover(records).Ok? <==> Recoverable(records)
    ensures Recover(records).Ok? ==> Rebuilt(records, Recover(records).value)
  {
    hide Replayable, Collected, FirstBaselines, LedgerOf, Finish, Rebuilt, NeededAgree, Settled, Traded;
    FirstPass(records);
    if ReplayAll(records).Ok? {
      FinishMeaning(records, ReplayAll(records).value);
    }
  }
}
