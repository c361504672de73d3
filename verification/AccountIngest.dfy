/** Ingesting a remote trade snapshot: what it leaves behind, and when a second ingest finds nothing to do. */
module AccountIngest {
  import opened Prelude
  import opened Ordered
  import opened Book
  import opened AccountLedger

  ghost predicate KeyedById(remote: RemoteTrades) {
    forall k | k in remote :: remote[k].tradeId == k
  }

  ghost predicate Meets(t: RemoteTrade, ids: set<string>) {
    Ids(t.orderIds) * ids != {}
  }

  /** Every order id named by a trade the ingest selects. */
  ghost function SelectedIds(a: Account, remote: RemoteTrades): set<string> {
    set k, id | k in remote && Selects(remote[k], WatchedIds(a), a.ledger) && id in Ids(remote[k].orderIds) :: id
  }

  /** No unseen trade becomes ours only through the ids of a trade selected in the same snapshot. */
  ghost predicate Closed(a: Account, remote: RemoteTrades) {
    forall k | k in remote && News(remote[k], a.ledger) ::
      Meets(remote[k], SelectedIds(a, remote)) ==> Meets(remote[k], WatchedIds(a))
  }

  // ----- Which events are selected -----

  lemma {:induction false} SelectedEvents(keys: seq<string>, ids: set<string>, ledger: map<string, LedgerEntry>, remote: RemoteTrades)
    requires forall k | k in keys :: k in remote
    ensures forall e :: e in TradeEventsFor(keys, ids, ledger, remote) <==>
      exists k :: k in keys && Selects(remote[k], ids, ledger) && e == EventOf(remote[k])
  {
    if keys != [] {
      SelectedEvents(keys[1..], ids, ledger, remote);
      assert forall k :: k in keys <==> k == keys[0] || k in keys[1..];
    }
  }

  lemma EventsToIngestMembers(a: Account, remote: RemoteTrades)
    ensures forall e :: e in EventsToIngest(a, remote) <==>
      exists k :: k in remote && Selects(remote[k], WatchedIds(a), a.ledger) && e == EventOf(remote[k])
  {
    SelectedEvents(SortedKeys(remote.Keys), WatchedIds(a), a.ledger, remote);
  }

  // ----- What a run of trade events does -----

  ghost predicate TradeEvents(events: seq<UserEvent>) {
    forall e | e in events :: e.TradeEvent?
  }

  ghost predicate OneRevisionEach(events: seq<UserEvent>) {
    TradeEvents(events) && forall d, e | d in events && e in events :: d.tradeId == e.tradeId ==> d == e
  }

  ghost function After(a: Account, events: seq<UserEvent>): Account {
    IngestEvents(a, [], events, a.snapshot).0
  }

  ghost predicate Accepted(a: Account, events: seq<UserEvent>) {
    IngestEvents(a, [], events, a.snapshot).2.Ok?
  }

  /** The account and the outcome do not depend on the journal or on the baseline written to it. */
  lemma {:induction false} JournalIrrelevant(a: Account, records: seq<AccountRecord>, other: seq<AccountRecord>,
      events: seq<UserEvent>, baseline: Snapshot, baseline': Snapshot)
    ensures IngestEvents(a, records, events, baseline).0 == IngestEvents(a, other, events, baseline').0
    ensures IngestEvents(a, records, events, baseline).2 == IngestEvents(a, other, events, baseline').2
    decreases |events|
  {
    if events != [] {
      JournalIrrelevant(RecordEvent(a, events[0]).0, records + [MutationRecord(events[0], baseline)],
                        other + [MutationRecord(events[0], baseline')], events[1..], baseline, baseline');
    }
  }

  lemma AfterStep(a: Account, events: seq<UserEvent>)
    requires events != [] && Accepted(a, events)
    ensures RecordEvent(a, events[0]).1.Ok?
    ensures var next := RecordEvent(a, events[0]).0;
      Accepted(next, events[1..]) && After(next, events[1..]) == After(a, events)
  {
    var next := RecordEvent(a, events[0]).0;
    assert [] + [MutationRecord(events[0], a.snapshot)] == [MutationRecord(events[0], a.snapshot)];
    JournalIrrelevant(next, [MutationRecord(events[0], a.snapshot)], [], events[1..], a.snapshot, next.snapshot);
  }

  ghost function IdsOf(events: seq<UserEvent>): set<string>
    requires TradeEvents(events)
  {
    set e, id | e in events && id in Ids(e.orderIds) :: id
  }

  lemma {:induction false} WatchedAfter(a: Account, events: seq<UserEvent>)
    requires TradeEvents(events) && Accepted(a, events)
    ensures WatchedIds(After(a, events)) == WatchedIds(a) + IdsOf(events)
    decreases |events|
  {
    if events != [] {
      AfterStep(a, events);
      var next := RecordEvent(a, events[0]).0;
      WatchedAfter(next, events[1..]);
      assert WatchedIds(next) == WatchedIds(a) + Ids(events[0].orderIds);
      assert IdsOf(events) == Ids(events[0].orderIds) + IdsOf(events[1..]);
    }
  }

  /** The ledger holds exactly this trade, and this status is not newer. */
  ghost predicate Settled(e: UserEvent, ledger: map<string, LedgerEntry>)
    requires e.TradeEvent?
  {
    e.tradeId in ledger && ledger[e.tradeId].mutation == MutationOf(e)
    && SelectLatest(ledger[e.tradeId].latestStatus, e.status) == ledger[e.tradeId].latestStatus
  }

  lemma {:induction false} SettledStays(a: Account, events: seq<UserEvent>, e: UserEvent)
    requires TradeEvents(events) && Accepted(a, events) && e.TradeEvent? && Settled(e, a.ledger)
    requires forall d | d in events :: d.tradeId == e.tradeId ==> d == e
    ensures Settled(e, After(a, events).ledger)
    decreases |events|
  {
    if events != [] {
      AfterStep(a, events);
      SettledStays(RecordEvent(a, events[0]).0, events[1..], e);
    }
  }

  lemma {:induction false} EventsSettle(a: Account, events: seq<UserEvent>, e: UserEvent)
    requires OneRevisionEach(events) && Accepted(a, events) && e in events
    ensures Settled(e, After(a, events).ledger)
    decreases |events|
  {
    AfterStep(a, events);
    var next := RecordEvent(a, events[0]).0;
    if e == events[0] {
      SettledStays(next, events[1..], e);
    } else {
      EventsSettle(next, events[1..], e);
    }
  }

  lemma {:induction false} OthersUntouched(a: Account, events: seq<UserEvent>, t: string)
    requires TradeEvents(events) && Accepted(a, events)
    requires forall d | d in events :: d.tradeId != t
    ensures t in After(a, events).ledger <==> t in a.ledger
    ensures t in a.ledger ==> After(a, events).ledger[t] == a.ledger[t]
    decreases |events|
  {
    if events != [] {
      AfterStep(a, events);
      OthersUntouched(RecordEvent(a, events[0]).0, events[1..], t);
    }
  }

  // ----- The fixpoint -----

  lemma IngestIsAfter(a: Account, records: seq<AccountRecord>, remote: RemoteTrades)
    ensures Ingest(a, records, remote).0 == After(a, EventsToIngest(a, remote))
    ensures Ingest(a, records, remote).2.Ok? <==> Accepted(a, EventsToIngest(a, remote))
  {
    JournalIrrelevant(a, records, [], EventsToIngest(a, remote), BaselineOf(a), a.snapshot);
  }

  /** Once the first ingest is through, a trade is still news exactly when it was news and was not selected. */
  lemma StillNews(a: Account, remote: RemoteTrades, k: string)
    requires KeyedById(remote) && k in remote && Accepted(a, EventsToIngest(a, remote))
    ensures var after := After(a, EventsToIngest(a, remote));
      News(remote[k], after.ledger) <==> News(remote[k], a.ledger) && !Meets(remote[k], WatchedIds(a))
  {
    var events := EventsToIngest(a, remote);
    EventsToIngestMembers(a, remote);
    if Selects(remote[k], WatchedIds(a), a.ledger) {
      assert EventOf(remote[k]) in events;
      EventsSettle(a, events, EventOf(remote[k]));
    } else {
      OthersUntouched(a, events, k);
    }
  }

  lemma WatchedAfterIngest(a: Account, remote: RemoteTrades)
    requires Accepted(a, EventsToIngest(a, remote))
    ensures WatchedIds(After(a, EventsToIngest(a, remote))) == WatchedIds(a) + SelectedIds(a, remote)
  {
    var events := EventsToIngest(a, remote);
    EventsToIngestMembers(a, remote);
    WatchedAfter(a, events);
    forall id ensures id in IdsOf(events) <==> id in SelectedIds(a, remote) {
      if id in IdsOf(events) {
        var e :| e in events && id in Ids(e.orderIds);
        var k :| k in remote && Selects(remote[k], WatchedIds(a), a.ledger) && e == EventOf(remote[k]);
        assert id in Ids(remote[k].orderIds);
      }
      if id in SelectedIds(a, remote) {
        var k :| k in remote && Selects(remote[k], WatchedIds(a), a.ledger) && id in Ids(remote[k].orderIds);
        assert EventOf(remote[k]) in events && id in Ids(EventOf(remote[k]).orderIds);
      }
    }
  }

  /** A second ingest of the same snapshot journals nothing exactly when the snapshot is closed for the account. */
  lemma IngestFixpoint(a: Account, records: seq<AccountRecord>, remote: RemoteTrades)
    requires KeyedById(remote) && Ingest(a, records, remote).2.Ok?
    ensures var (after, journaled, _) := Ingest(a, records, remote);
      Closed(a, remote) <==> Ingest(after, journaled, remote) == (after, journaled, Ok(()))
  {
    var (after, journaled, _) := Ingest(a, records, remote);
    IngestIsAfter(a, records, remote);
    WatchedAfterIngest(a, remote);
    EventsToIngestMembers(after, remote);
    forall k | k in remote
      ensures Selects(remote[k], WatchedIds(after), after.ledger)
        <==> News(remote[k], a.ledger) && !Meets(remote[k], WatchedIds(a)) && Meets(remote[k], SelectedIds(a, remote))
    {
      StillNews(a, remote, k);
    }
    var again := EventsToIngest(after, remote);
    assert again == [] || again[0] in again;
    if !Closed(a, remote) {
      var k :| k in remote && News(remote[k], a.ledger) && Meets(remote[k], SelectedIds(a, remote)) && !Meets(remote[k], WatchedIds(a));
      assert EventOf(remote[k]) in again;
      JournalGrows(after, journaled, again, BaselineOf(after));
    }
  }

  lemma {:induction false} JournalGrows(a: Account, records: seq<AccountRecord>, events: seq<UserEvent>, baseline: Snapshot)
    ensures |IngestEvents(a, records, events, baseline).1| >= |records|
    ensures events != [] ==> |IngestEvents(a, records, events, baseline).1| > |records|
    decreases |events|
  {
    if events != [] {
      JournalGrows(RecordEvent(a, events[0]).0, records + [MutationRecord(events[0], baseline)], events[1..], baseline);
    }
  }

  /** With one order id per trade, as the adapter normalises them, every snapshot is closed. */
  lemma OneIdPerTradeCloses(a: Account, remote: RemoteTrades)
    requires forall k | k in remote :: |remote[k].orderIds| == 1
    ensures Closed(a, remote)
  {
    forall k | k in remote && News(remote[k], a.ledger) && Meets(remote[k], SelectedIds(a, remote))
      ensures Meets(remote[k], WatchedIds(a))
    {
      var id := remote[k].orderIds[0];
      assert Ids(remote[k].orderIds) == {id};
      assert id in SelectedIds(a, remote);
      var j :| j in remote && Selects(remote[j], WatchedIds(a), a.ledger) && id in Ids(remote[j].orderIds);
      assert Ids(remote[j].orderIds) == {remote[j].orderIds[0]} == {id};
      assert id in Ids(remote[k].orderIds) * WatchedIds(a);
    }
  }

  /** With two ids on a trade the second ingest can find a trade the first one could not see. */
  lemma TwoIdsNeedTwoIngests(snapshot: Snapshot)
    ensures var first := RemoteTrade("1", "asset", Buy, 1, 1, 0, "matched", ["a", "b"]);
      var second := first.(tradeId := "2", orderIds := ["b"]);
      var a := Account(snapshot, map[], {}, {"a"}, None, false);
      !Closed(a, map["1" := first, "2" := second])
  {
    var first := RemoteTrade("1", "asset", Buy, 1, 1, 0, "matched", ["a", "b"]);
    var second := first.(tradeId := "2", orderIds := ["b"]);
    var a := Account(snapshot, map[], {}, {"a"}, None, false);
    var remote := map["1" := first, "2" := second];
    assert "a" in Ids(first.orderIds) * WatchedIds(a);
    assert "1" in remote && remote["1"] == first && Selects(first, WatchedIds(a), a.ledger);
    assert "b" in Ids(first.orderIds);
    assert "b" in SelectedIds(a, remote);
    assert "b" in Ids(second.orderIds) * SelectedIds(a, remote);
    assert Ids(second.orderIds) == {"b"};
    assert News(remote["2"], a.ledger);
  }

  // ----- Status ranks -----

  /** The status a trade holds after one more revision. */
  lemma RecordedStatus(a: Account, e: UserEvent)
    requires e.TradeEvent? && RecordEvent(a, e).1.Ok?
    ensures var ledger := RecordEvent(a, e).0.ledger;
      && ledger.Keys == a.ledger.Keys + {e.tradeId}
      && (forall t | t in a.ledger && t != e.tradeId :: ledger[t] == a.ledger[t])
      && ledger[e.tradeId].latestStatus
         == (if e.tradeId in a.ledger then SelectLatest(a.ledger[e.tradeId].latestStatus, e.status) else e.status)
  {
  }

  /** A trade's stored status rank never falls, and no revision recorded outranks it, in whatever order they came. */
  lemma {:induction false} RankNeverFalls(a: Account, events: seq<UserEvent>, t: string)
    requires TradeEvents(events) && Accepted(a, events)
    ensures var ledger := After(a, events).ledger;
      && (t in a.ledger ==> t in ledger && Rank(a.ledger[t].latestStatus) <= Rank(ledger[t].latestStatus))
      && (forall e | e in events && e.tradeId == t :: t in ledger && Rank(e.status) <= Rank(ledger[t].latestStatus))
    decreases |events|
  {
    if events != [] {
      AfterStep(a, events);
      RecordedStatus(a, events[0]);
      RankNeverFalls(RecordEvent(a, events[0]).0, events[1..], t);
    }
  }

  ghost predicate Seen(a: Account, events: seq<UserEvent>, t: string, status: string)
    requires TradeEvents(events)
  {
    (t in a.ledger && a.ledger[t].latestStatus == status) || exists e :: e in events && e.tradeId == t && e.status == status
  }

  /** Together with `RankNeverFalls`: the stored rank is the highest one seen. */
  lemma {:induction false} StatusWasSeen(a: Account, events: seq<UserEvent>, t: string)
    requires TradeEvents(events) && Accepted(a, events) && t in After(a, events).ledger
    ensures Seen(a, events, t, After(a, events).ledger[t].latestStatus)
    decreases |events|
  {
    if events != [] {
      AfterStep(a, events);
      RecordedStatus(a, events[0]);
      var next := RecordEvent(a, events[0]).0;
      StatusWasSeen(next, events[1..], t);
    }
  }
}
