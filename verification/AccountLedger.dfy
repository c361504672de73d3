/** The live account ledger: user events folded into memory after they were journaled. */
module AccountLedger {
  import opened Prelude
  import opened Ordered
  import opened Book

  datatype Holding = Holding(assetId: string, size: int, averagePrice: int, currentValue: int, cashPnl: int)

  datatype Snapshot = Snapshot(updatedAt: nat, collateral: int, equity: int, positions: seq<Holding>, openOrderCount: nat)

  datatype Mutation = Mutation(assetId: string, side: Side, price: int, size: int, orderIds: set<string>)

  datatype LedgerEntry = LedgerEntry(mutation: Mutation, latestStatus: string, reconciled: bool)

  datatype Pending = Pending(baseline: Snapshot, trades: map<string, Mutation>, authoritative: set<string>, unresolved: set<string>)

  datatype UserEvent =
    | OrderEvent(orderId: string, status: string, sizeMatched: Option<int>)
    | TradeEvent(tradeId: string, assetId: string, side: Side, price: int, size: int, status: string, orderIds: seq<string>)
    | Disconnect

  /** A journal record as the account recovery reads it. */
  datatype AccountRecord =
    | MutationRecord(event: UserEvent, baseline: Snapshot)
    | ReconciledRecord(tradeIds: seq<string>)
    | OtherRecord
    | MalformedRecord

  datatype Account = Account(
    snapshot: Snapshot, ledger: map<string, LedgerEntry>, known: set<string>, owned: set<string>,
    pending: Option<Pending>, latched: bool)

  // ----- Statuses -----

  function Lower(c: char): char {
    if 'A' <= c <= 'Z' then (c as int + 32) as char else c
  }

  function AsciiLower(s: string): string {
    seq(|s|, i requires 0 <= i < |s| => Lower(s[i]))
  }

  datatype StatusClass = Active | Failed | Unknown

  function Classify(status: string): StatusClass {
    var s := AsciiLower(status);
    if s == "matched" || s == "mined" || s == "confirmed" || s == "retrying" then Active
    else if s == "failed" then Failed
    else Unknown
  }

  function Rank(status: string): nat {
    var s := AsciiLower(status);
    if s == "matched" then 0
    else if s == "retrying" then 1
    else if s == "mined" then 2
    else if s == "confirmed" then 3
    else if s == "failed" then 4
    else 5
  }

  function SelectLatest(existing: string, incoming: string): string {
    if Rank(incoming) >= Rank(existing) then incoming else existing
  }

  /** The letters of a lower-case word, in either case. */
  ghost predicate SameLetters(s: string, word: string) {
    && |s| == |word|
    && forall i | 0 <= i < |word| :: s[i] == word[i] || ('A' <= s[i] <= 'Z' && s[i] as int + 32 == word[i] as int)
  }

  lemma LettersMeaning(s: string, word: string)
    requires forall i | 0 <= i < |word| :: 'a' <= word[i] <= 'z'
    ensures AsciiLower(s) == word <==> SameLetters(s, word)
  {
    if AsciiLower(s) == word {
      forall i | 0 <= i < |word| ensures s[i] == word[i] || ('A' <= s[i] <= 'Z' && s[i] as int + 32 == word[i] as int) {
        assert Lower(s[i]) == AsciiLower(s)[i] == word[i];
      }
    }
    if SameLetters(s, word) {
      forall i | 0 <= i < |word| ensures AsciiLower(s)[i] == word[i] {
        assert AsciiLower(s)[i] == Lower(s[i]);
      }
    }
  }

  /** A trade status that stands for a trade that happened. */
  ghost predicate ActiveWord(status: string) {
    SameLetters(status, "matched") || SameLetters(status, "mined") || SameLetters(status, "confirmed") || SameLetters(status, "retrying")
  }

  /** Class and rank of a status, by its letters. */
  lemma StatusMeaning(status: string)
    ensures Classify(status).Active? <==> ActiveWord(status)
    ensures Classify(status).Failed? <==> SameLetters(status, "failed")
    ensures SameLetters(status, "matched") ==> Rank(status) == 0
    ensures SameLetters(status, "retrying") ==> Rank(status) == 1
    ensures SameLetters(status, "mined") ==> Rank(status) == 2
    ensures SameLetters(status, "confirmed") ==> Rank(status) == 3
    ensures SameLetters(status, "failed") ==> Rank(status) == 4
    ensures !ActiveWord(status) && !SameLetters(status, "failed") ==> Rank(status) == 5
  {
    LettersMeaning(status, "matched");
    LettersMeaning(status, "retrying");
    LettersMeaning(status, "mined");
    LettersMeaning(status, "confirmed");
    LettersMeaning(status, "failed");
  }

  /** The classes are an initial and a final stretch of the ranks. */
  lemma RankOfClass(status: string)
    ensures Classify(status).Active? <==> Rank(status) <= 3
  {
  }

  /** From matched to unknown, whatever the case of the letters. */
  lemma StatusOrder(status: string)
    ensures Rank("MATCHED") < Rank("Retrying") < Rank("mined") < Rank("CONFIRMED") < Rank("Failed")
    ensures Classify("FAILED").Failed? && (Classify(status).Unknown? <==> Rank(status) > Rank("failed"))
    ensures Rank(AsciiLower(status)) == Rank(status) && Classify(AsciiLower(status)) == Classify(status)
  {
    assert AsciiLower("MATCHED") == "matched" && AsciiLower("Retrying") == "retrying" && AsciiLower("mined") == "mined";
    assert AsciiLower("CONFIRMED") == "confirmed" && AsciiLower("Failed") == "failed" && AsciiLower("FAILED") == "failed";
    assert AsciiLower("failed") == "failed";
    assert AsciiLower(AsciiLower(status)) == AsciiLower(status);
  }

  /** The kept status has the higher rank, so it is inactive exactly when one of the two is. */
  lemma LatestStatus(existing: string, incoming: string)
    ensures Rank(SelectLatest(existing, incoming)) >= Rank(existing)
    ensures Rank(SelectLatest(existing, incoming)) >= Rank(incoming)
    ensures Classify(SelectLatest(existing, incoming)).Active? <==> Classify(existing).Active? && Classify(incoming).Active?
    ensures SelectLatest(SelectLatest(existing, incoming), incoming) == SelectLatest(existing, incoming)
  {
    RankOfClass(existing);
    RankOfClass(incoming);
  }

  // ----- Events -----

  predicate RequiresReconciliation(e: UserEvent) {
    match e
    case TradeEvent(_, _, _, _, _, _, _) => true
    case OrderEvent(_, status, matched) => AsciiLower(status) == "matched" || (matched.Some? && matched.value > 0)
    case Disconnect => false
  }

  function Ids(orderIds: seq<string>): set<string> {
    set id | id in orderIds
  }

  function MutationOf(e: UserEvent): Mutation
    requires e.TradeEvent?
  {
    Mutation(e.assetId, e.side, e.price, e.size, Ids(e.orderIds))
  }

  /** A trade event with these terms, whatever the order and repetition of its order ids. */
  ghost predicate SameTerms(m: Mutation, e: UserEvent)
    requires e.TradeEvent?
  {
    && m.assetId == e.assetId && m.side == e.side && m.price == e.price && m.size == e.size
    && forall id :: id in m.orderIds <==> id in e.orderIds
  }

  lemma TermsMeaning(m: Mutation, e: UserEvent)
    requires e.TradeEvent?
    ensures m == MutationOf(e) <==> SameTerms(m, e)
  {
    assert forall id :: id in Ids(e.orderIds) <==> id in e.orderIds;
    if SameTerms(m, e) {
      assert m.orderIds == Ids(e.orderIds);
    }
  }

  /** The baseline a mutation is journaled with: that of the open reconciliation, else the last snapshot. */
  function BaselineOf(a: Account): Snapshot {
    if a.pending.Some? then a.pending.value.baseline else a.snapshot
  }

  function Ensured(a: Account): (r: Account)
    ensures r.pending.Some? && r.pending.value.baseline == BaselineOf(a)
  {
    if a.pending.Some? then a else a.(pending := Some(Pending(a.snapshot, map[], {}, {})))
  }

  function RecordOrder(a: Account, orderId: string): (Account, Result<bool>) {
    if orderId in a.known then (a, Ok(false))
    else
      var b := Ensured(a);
      var p := b.pending.value;
      (if orderId in p.authoritative then b else b.(pending := Some(p.(unresolved := p.unresolved + {orderId}))), Ok(true))
  }

  /** The ledger, known ids and latch after a trade revision that agrees with what is known. */
  function WithTrade(a: Account, e: UserEvent): Account
    requires e.TradeEvent?
  {
    var entry := if e.tradeId in a.ledger then
        LedgerEntry(MutationOf(e), SelectLatest(a.ledger[e.tradeId].latestStatus, e.status), a.ledger[e.tradeId].reconciled)
      else LedgerEntry(MutationOf(e), e.status, false);
    a.(ledger := a.ledger[e.tradeId := entry], known := a.known + Ids(e.orderIds), owned := a.owned + Ids(e.orderIds),
       latched := a.latched || !Classify(e.status).Active?)
  }

  function WithPendingTrade(a: Account, e: UserEvent): Account
    requires e.TradeEvent?
  {
    var b := Ensured(a);
    var p := b.pending.value;
    b.(pending := Some(Pending(p.baseline, p.trades[e.tradeId := MutationOf(e)],
                               p.authoritative + Ids(e.orderIds), p.unresolved - Ids(e.orderIds))))
  }

  predicate Conflicts(a: Account, e: UserEvent) {
    e.TradeEvent? && e.tradeId in a.ledger && a.ledger[e.tradeId].mutation != MutationOf(e)
  }

  function RecordTrade(a: Account, e: UserEvent): (Account, Result<bool>)
    requires e.TradeEvent?
  {
    if Conflicts(a, e) then (a.(latched := true), Err("conflicting_user_trade_identity"))
    else
      var b := WithTrade(a, e);
      var active := Classify(e.status).Active?;
      if b.ledger[e.tradeId].reconciled then (b, Ok(!active))
      else if !active then (b, Ok(true))
      else (WithPendingTrade(b, e), Ok(true))
  }

  /** `record_pending_account_event`. */
  function RecordEvent(a: Account, e: UserEvent): (Account, Result<bool>) {
    if !RequiresReconciliation(e) then (a, Ok(false))
    else if e.OrderEvent? then RecordOrder(a, e.orderId)
    else if e.TradeEvent? then RecordTrade(a, e)
    else (a, Ok(true))
  }

  // ----- Authoritative trades -----

  datatype RemoteTrade = RemoteTrade(
    tradeId: string, assetId: string, side: Side, price: int, size: int, feeRateBps: int, status: string, orderIds: seq<string>)

  type RemoteTrades = map<string, RemoteTrade>

  function EventOf(t: RemoteTrade): UserEvent {
    TradeEvent(t.tradeId, t.assetId, t.side, t.price, t.size, t.status, t.orderIds)
  }

  /** The ledger does not hold this trade in this form, or the remote status is newer. */
  predicate News(t: RemoteTrade, ledger: map<string, LedgerEntry>) {
    t.tradeId !in ledger
    || ledger[t.tradeId].mutation != MutationOf(EventOf(t))
    || SelectLatest(ledger[t.tradeId].latestStatus, t.status) != ledger[t.tradeId].latestStatus
  }

  predicate Selects(t: RemoteTrade, orderIds: set<string>, ledger: map<string, LedgerEntry>) {
    Ids(t.orderIds) * orderIds != {} && News(t, ledger)
  }

  /** The remote trades, in key order, that concern our orders and tell something new. */
  function TradeEventsFor(keys: seq<string>, orderIds: set<string>, ledger: map<string, LedgerEntry>, remote: RemoteTrades): seq<UserEvent>
    requires forall k | k in keys :: k in remote
  {
    if keys == [] then []
    else
      var rest := TradeEventsFor(keys[1..], orderIds, ledger, remote);
      if Selects(remote[keys[0]], orderIds, ledger) then [EventOf(remote[keys[0]])] + rest else rest
  }

  function WatchedIds(a: Account): set<string> {
    a.owned + (if a.pending.Some? then a.pending.value.unresolved else {})
  }

  function EventsToIngest(a: Account, remote: RemoteTrades): seq<UserEvent> {
    TradeEventsFor(SortedKeys(remote.Keys), WatchedIds(a), a.ledger, remote)
  }

  /** Journals and records events one by one with one baseline; the first conflict stops it. */
  function IngestEvents(a: Account, records: seq<AccountRecord>, events: seq<UserEvent>, baseline: Snapshot)
    : (Account, seq<AccountRecord>, Result<()>)
    decreases |events|
  {
    if events == [] then (a, records, Ok(()))
    else
      var journaled := records + [MutationRecord(events[0], baseline)];
      var (next, r) := RecordEvent(a, events[0]);
      if r.Err? then (next, journaled, Err(r.error)) else IngestEvents(next, journaled, events[1..], baseline)
  }

  /** `ingest_authoritative_remote_trades`. */
  function Ingest(a: Account, records: seq<AccountRecord>, remote: RemoteTrades): (Account, seq<AccountRecord>, Result<()>) {
    IngestEvents(a, records, EventsToIngest(a, remote), BaselineOf(a))
  }

  lemma {:induction false} IngestSnoc(a: Account, records: seq<AccountRecord>, events: seq<UserEvent>, e: UserEvent, baseline: Snapshot)
    requires IngestEvents(a, records, events, baseline).2.Ok?
    ensures var (before, journaled, _) := IngestEvents(a, records, events, baseline);
      var (after, r) := RecordEvent(before, e);
      IngestEvents(a, records, events + [e], baseline)
        == (after, journaled + [MutationRecord(e, baseline)], if r.Ok? then Ok(()) else Err(r.error))
    decreases |events|
  {
    if events == [] {
      assert [] + [e] == [e] && [e][1..] == [];
    } else {
      assert (events + [e])[1..] == events[1..] + [e];
      IngestSnoc(RecordEvent(a, events[0]).0, records + [MutationRecord(events[0], baseline)], events[1..], e, baseline);
    }
  }

  /** What an append failing on event `n` leaves: the events before it recorded, its own record perhaps journaled. */
  ghost predicate StoppedAt(a: Account, records: seq<AccountRecord>, remote: RemoteTrades, a': Account, records': seq<AccountRecord>, n: nat) {
    var events := EventsToIngest(a, remote);
    && n < |events|
    && var (before, journaled, r) := IngestEvents(a, records, events[..n], BaselineOf(a));
    r.Ok? && a' == before && (records' == journaled || records' == journaled + [MutationRecord(events[n], BaselineOf(a))])
  }

  ghost predicate IngestStopped(a: Account, records: seq<AccountRecord>, remote: RemoteTrades, a': Account, records': seq<AccountRecord>) {
    exists n: nat :: StoppedAt(a, records, remote, a', records', n)
  }

  // ----- Commit -----

  function MarkReconciled(ledger: map<string, LedgerEntry>, ids: seq<string>): map<string, LedgerEntry> {
    map t | t in ledger :: if t in ids then ledger[t].(reconciled := true) else ledger[t]
  }

  /** `commit_account_reconciliation`: the record it appends and the account after it. */
  function Commit(a: Account): Result<(Account, AccountRecord)> {
    if a.pending.None? then Err("pending_account_state_missing")
    else
      var ids := SortedKeys(a.pending.value.trades.Keys);
      if ids == [] then Err("account_reconciliation_has_no_authoritative_trades")
      else if exists t | t in ids :: t !in a.ledger then Err("reconciled_trade_missing_from_ledger")
      else Ok((a.(ledger := MarkReconciled(a.ledger, ids), pending := None), ReconciledRecord(ids)))
  }

  // ----- The mutable account -----

  /** How an append ends: written, failed and rolled back, or failed with its line left in the log. */
  datatype AppendOutcome = Written | RolledBack | LeftBehind

  /** The journal as the account sees it: decoded records, and whether appends still work. */
  class AccountJournal {
    var records: seq<AccountRecord>
    var poisoned: bool

    constructor (records: seq<AccountRecord>)
      ensures this.records == records && !poisoned
    {
      this.records := records;
      poisoned := false;
    }

    /** A failing append poisons the journal; its record may stay behind where the rollback fails too. */
    method Append(record: AccountRecord, io: AppendOutcome) returns (ok: bool)
      modifies this
      ensures ok <==> !old(poisoned) && io.Written?
      ensures records == if old(poisoned) || io.RolledBack? then old(records) else old(records) + [record]
      ensures poisoned == !ok
    {
      if poisoned {
        return false;
      }
      if !io.RolledBack? {
        records := records + [record];
      }
      ok := io.Written?;
      poisoned := !ok;
    }
  }

  class LiveAccount {
    var lastAccountSnapshot: Snapshot
    var tradeLedger: map<string, LedgerEntry>
    var knownTradeOrderIds: set<string>
    var ownedOrderIds: set<string>
    var pendingReconciliation: Option<Pending>
    var safetyLatched: bool

    function View(): Account
      reads this
    {
      Account(lastAccountSnapshot, tradeLedger, knownTradeOrderIds, ownedOrderIds, pendingReconciliation, safetyLatched)
    }

    constructor (a: Account)
      ensures View() == a
    {
      lastAccountSnapshot, tradeLedger := a.snapshot, a.ledger;
      knownTradeOrderIds, ownedOrderIds := a.known, a.owned;
      pendingReconciliation, safetyLatched := a.pending, a.latched;
    }

    method EnsurePending()
      modifies `pendingReconciliation
      ensures View() == Ensured(old(View()))
    {
      if pendingReconciliation.None? {
        pendingReconciliation := Some(Pending(lastAccountSnapshot, map[], {}, {}));
      }
    }

    method RecordTradeEvent(e: UserEvent) returns (r: Result<bool>)
      requires e.TradeEvent?
      modifies this
      ensures (View(), r) == RecordTrade(old(View()), e)
    {
      var ids := Ids(e.orderIds);
      var mutation := MutationOf(e);
      var existing := if e.tradeId in tradeLedger then Some(tradeLedger[e.tradeId]) else None;
      if existing.Some? && existing.value.mutation != mutation {
        safetyLatched := true;
        return Err("conflicting_user_trade_identity");
      }
      var statusClass := Classify(e.status);
      if !statusClass.Active? {
        safetyLatched := true;
      }
      var reconciled := existing.Some? && existing.value.reconciled;
      var latest := if existing.Some? then SelectLatest(existing.value.latestStatus, e.status) else e.status;
      tradeLedger := tradeLedger[e.tradeId := LedgerEntry(mutation, latest, reconciled)];
      knownTradeOrderIds := knownTradeOrderIds + ids;
      ownedOrderIds := ownedOrderIds + ids;
      if reconciled {
        return Ok(!statusClass.Active?);
      }
      if !statusClass.Active? {
        return Ok(true);
      }
      EnsurePending();
      var p := pendingReconciliation.value;
      pendingReconciliation := Some(Pending(p.baseline, p.trades[e.tradeId := mutation], p.authoritative + ids, p.unresolved - ids));
      return Ok(true);
    }

    method RecordPendingAccountEvent(e: UserEvent) returns (r: Result<bool>)
      modifies this
      ensures (View(), r) == RecordEvent(old(View()), e)
    {
      if !RequiresReconciliation(e) {
        return Ok(false);
      }
      match e {
        case OrderEvent(orderId, _, _) =>
          if orderId in knownTradeOrderIds {
            return Ok(false);
          }
          EnsurePending();
          var p := pendingReconciliation.value;
          if orderId !in p.authoritative {
            pendingReconciliation := Some(p.(unresolved := p.unresolved + {orderId}));
          }
        case TradeEvent(_, _, _, _, _, _, _) =>
          r := RecordTradeEvent(e);
          return;
        case Disconnect =>
      }
      return Ok(true);
    }

    /**
     * Every event that selects is journaled, then recorded; a conflict stops the ingest, and so does an append failure,
     * with exactly the events before it recorded.
     */
    method IngestAuthoritativeRemoteTrades(journal: AccountJournal, remote: RemoteTrades, io: nat -> AppendOutcome)
      returns (r: Result<nat>)
      modifies this, journal
      ensures r.Ok? || !journal.poisoned ==>
        var (after, records, outcome) := Ingest(old(View()), old(journal.records), remote);
        View() == after && journal.records == records && r.Ok? == outcome.Ok?
      ensures r.Ok? ==> r.value == |EventsToIngest(old(View()), remote)|
      ensures r.Err? && journal.poisoned ==> IngestStopped(old(View()), old(journal.records), remote, View(), journal.records)
    {
      var baseline := BaselineOf(View());
      var events := EventsToIngest(View(), remote);
      assert events[0..] == events && events[..0] == [];
      for i := 0 to |events|
        invariant IngestEvents(View(), journal.records, events[i..], baseline)
               == IngestEvents(old(View()), old(journal.records), events, baseline)
        invariant IngestEvents(old(View()), old(journal.records), events[..i], baseline) == (View(), journal.records, Ok(()))
      {
        assert events[i..][1..] == events[i + 1..] && events[..i + 1] == events[..i] + [events[i]];
        IngestSnoc(old(View()), old(journal.records), events[..i], events[i], baseline);
        var appended := journal.Append(MutationRecord(events[i], baseline), io(i));
        if !appended {
          assert StoppedAt(old(View()), old(journal.records), remote, View(), journal.records, i);
          return Err("journal_append_failed_and_poisoned");
        }
        var recorded := RecordPendingAccountEvent(events[i]);
        if recorded.Err? {
          return Err(recorded.error);
        }
      }
      return Ok(|events|);
    }

    method MarkTrades(ids: seq<string>)
      requires forall t | t in ids :: t in tradeLedger
      modifies `tradeLedger
      ensures tradeLedger == MarkReconciled(old(tradeLedger), ids)
    {
      for i := 0 to |ids|
        invariant tradeLedger == MarkReconciled(old(tradeLedger), ids[..i])
      {
        assert ids[..i + 1] == ids[..i] + [ids[i]];
        tradeLedger := tradeLedger[ids[i] := tradeLedger[ids[i]].(reconciled := true)];
      }
      assert ids[..|ids|] == ids;
    }

    /** The record is on disk before the memory changes; after a refusal or a failed append memory has not moved. */
    method CommitAccountReconciliation(journal: AccountJournal, io: AppendOutcome) returns (r: Result<()>)
      modifies this, journal
      ensures r.Ok? <==> Commit(old(View())).Ok? && !old(journal.poisoned) && io.Written?
      ensures r.Ok? ==> View() == Commit(old(View())).value.0
      ensures r.Err? ==> View() == old(View())
      ensures journal.records == if Commit(old(View())).Err? || old(journal.poisoned) || io.RolledBack? then old(journal.records)
                                 else old(journal.records) + [Commit(old(View())).value.1]
      ensures r.Err? && Commit(old(View())).Ok? ==> journal.poisoned
    {
      if pendingReconciliation.None? {
        return Err("pending_account_state_missing");
      }
      var ids := SortedKeys(pendingReconciliation.value.trades.Keys);
      if ids == [] {
        return Err("account_reconciliation_has_no_authoritative_trades");
      }
      if exists t | t in ids :: t !in tradeLedger {
        return Err("reconciled_trade_missing_from_ledger");
      }
      var appended := journal.Append(ReconciledRecord(ids), io);
      if !appended {
        return Err("journal_append_failed_and_poisoned");
      }
      MarkTrades(ids);
      pendingReconciliation := None;
      return Ok(());
    }
  }
}
