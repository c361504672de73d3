/** The drivers around the account: user events, the periodic audit, and the start of a session. */
module AccountSession {
  import opened Prelude
  import opened Ordered
  import opened Book
  import opened AccountLedger
  import opened AccountIngest
  import opened AccountReconciled
  import opened AccountHoldings
  import opened AccountRecovery
  import opened AccountMirror
  import opened AccountRuns

  // ----- User events -----

  /** Journals, then records. Where an append fails memory has not moved, and the journal holds what was written so far. */
  method HandleUserEvent(live: LiveAccount, journal: AccountJournal, e: UserEvent, lifecycle: nat, io: nat -> AppendOutcome)
    returns (r: Result<bool>)
    modifies live, journal
    ensures r.Ok? || !journal.poisoned ==>
      Live(live.View(), journal.records) == Perform(Live(old(live.View()), old(journal.records)), User(e, lifecycle))
      && r == RecordEvent(old(live.View()), e).1
    ensures r.Err? && journal.poisoned ==> live.View() == old(live.View())
    ensures old(journal.records) <= journal.records <= old(journal.records) + Journaled(old(live.View()), e) + Others(lifecycle)
  {
    var required := RequiresReconciliation(e);
    ghost var whole := journal.records + Journaled(live.View(), e) + Others(lifecycle);
    if required {
      var journaled := journal.Append(MutationRecord(e, BaselineOf(live.View())), io(0));
      if !journaled {
        return Err("journal_append_failed_and_poisoned");
      }
    }
    ghost var written := journal.records;
    assert written == old(journal.records) + Journaled(old(live.View()), e);
    for i := 0 to lifecycle
      invariant journal.records == written + Others(i)
      invariant live.View() == old(live.View())
      invariant required ==> !journal.poisoned
    {
      assert Others(i + 1) == Others(i) + [OtherRecord];
      assert written + Others(i + 1) <= whole;
      var journaled := journal.Append(OtherRecord, io(i + 1));
      if !journaled {
        return Err("journal_append_failed_and_poisoned");
      }
    }
    r := live.RecordPendingAccountEvent(e);
  }

  // ----- The periodic audit -----

  /** What one audit does to the account: ingest, then observe or commit; a failed or unknown trade latches. */
  function Audit(l: Live, current: Snapshot, remote: RemoteTrades): Live {
    var next := Perform(l, Ingested(remote));
    if Ingest(l.account, l.records, remote).2.Err? || next.account.latched then Perform(next, Latched)
    else if next.account.pending.None? then Perform(next, Observed(current))
    else
      var proof := AuthoritativeProof(next.account.pending.value, remote);
      if proof.Err? then Perform(next, Latched) else Perform(next, Committed(current, proof.value))
  }

  /** A commit whose append failed: the snapshot has been replaced all the same, the trades are still pending. */
  ghost predicate CommitFailed(before: Live, current: Snapshot, after: Live) {
    && after.account == before.account.(snapshot := current) && Commit(before.account).Ok?
    && (after.records == before.records || after.records == before.records + [Commit(before.account).value.1])
  }

  /** The snapshot is replaced before the commit is journaled, so it stays replaced when that append fails. */
  method CommitWhenReconciled(live: LiveAccount, journal: AccountJournal, current: Snapshot, proof: TradeProof, io: AppendOutcome)
    returns (r: Result<()>)
    requires live.pendingReconciliation.Some?
    modifies live, journal
    ensures var before, after := Live(old(live.View()), old(journal.records)), Live(live.View(), journal.records);
      if Reconciled(before.account.pending.value, current, proof) == Ok(true) && r.Err? && Commit(before.account).Ok?
      then journal.poisoned && CommitFailed(before, current, after)
      else after == CommitIfReconciled(before, current, proof)
  {
    ghost var a := live.View();
    var reconciled := PendingAccountReconciled(live.pendingReconciliation.value, current, proof);
    if reconciled != Ok(true) {
      return if reconciled.Err? then Err(reconciled.error) else Ok(());
    }
    live.lastAccountSnapshot := current;
    CommitIgnoresSnapshot(a, current);
    r := live.CommitAccountReconciliation(journal, io);
  }

  lemma CommitIgnoresSnapshot(a: Account, current: Snapshot)
    ensures var b := a.(snapshot := current);
      && (Commit(b).Ok? <==> Commit(a).Ok?)
      && (Commit(a).Ok? ==> Commit(b).value == (Commit(a).value.0.(snapshot := current), Commit(a).value.1))
  {
  }

  /** What an audit leaves when an append fails in it: a latched account after part of the ingest, or a failed commit. */
  ghost predicate AuditStopped(before: Live, current: Snapshot, remote: RemoteTrades, after: Live) {
    || (after.account.latched && exists a: Account ::
          after.account == a.(latched := true) && IngestStopped(before.account, before.records, remote, a, after.records))
    || CommitFailed(Perform(before, Ingested(remote)), current, after)
  }

  method AuditAccount(live: LiveAccount, journal: AccountJournal, current: Snapshot, remote: RemoteTrades,
      io: nat -> AppendOutcome, commitIo: AppendOutcome) returns (r: Result<()>)
    modifies live, journal
    ensures var before, after := Live(old(live.View()), old(journal.records)), Live(live.View(), journal.records);
      after == Audit(before, current, remote) || (r.Err? && journal.poisoned && AuditStopped(before, current, remote, after))
  {
    ghost var l := Live(live.View(), journal.records);
    var ingested := live.IngestAuthoritativeRemoteTrades(journal, remote, io);
    if ingested.Err? {
      ghost var stopped := live.View();
      live.safetyLatched := true;
      assert live.View() == stopped.(latched := true);
      return Err(ingested.error);
    }
    assert Live(live.View(), journal.records) == Perform(l, Ingested(remote));
    if live.safetyLatched {
      return Ok(());
    }
    if live.pendingReconciliation.None? {
      live.lastAccountSnapshot := current;
      return Ok(());
    }
    var proof := AuthoritativePendingTradeProof(live.pendingReconciliation.value, remote);
    if proof.Err? {
      live.safetyLatched := true;
      return Ok(());
    }
    r := CommitWhenReconciled(live, journal, current, proof.value, commitIo);
  }

  // ----- The start of a session -----

  /** What startup journals before it recovers a second time: every selected trade, with one baseline. */
  function StartupRecords(a: Account, remote: RemoteTrades): seq<AccountRecord> {
    var events := EventsToIngest(a, remote);
    seq(|events|, i requires 0 <= i < |events| => MutationRecord(events[i], BaselineOf(a)))
  }

  function TradeIds(events: seq<UserEvent>): seq<string>
    requires forall e | e in events :: e.TradeEvent?
  {
    seq(|events|, i requires 0 <= i < |events| => assert events[i] in events; events[i].tradeId)
  }

  /** `append_startup_authoritative_trades`: the ids of the journaled trades, in order. */
  method AppendStartupAuthoritativeTrades(journal: AccountJournal, a: Account, remote: RemoteTrades, io: nat -> AppendOutcome)
    returns (r: Result<seq<string>>)
    modifies journal
    ensures forall e | e in EventsToIngest(a, remote) :: e.TradeEvent?
    ensures r.Ok? ==> journal.records == old(journal.records) + StartupRecords(a, remote)
    ensures r.Ok? ==> r.value == TradeIds(EventsToIngest(a, remote))
    ensures r.Err? ==> journal.poisoned && old(journal.records) <= journal.records <= old(journal.records) + StartupRecords(a, remote)
  {
    var events := EventsToIngest(a, remote);
    EventsToIngestMembers(a, remote);
    var ids: seq<string> := [];
    for i := 0 to |events|
      invariant ids == TradeIds(events)[..i] && journal.records == old(journal.records) + StartupRecords(a, remote)[..i]
    {
      assert events[i] in events;
      assert StartupRecords(a, remote)[..i + 1] == StartupRecords(a, remote)[..i] + [MutationRecord(events[i], BaselineOf(a))];
      var appended := journal.Append(MutationRecord(events[i], BaselineOf(a)), io(i));
      if !appended {
        return Err("journal_append_failed_and_poisoned");
      }
      ids := ids + [events[i].tradeId];
    }
    return Ok(ids);
  }

  function Mutations(events: seq<UserEvent>, baseline: Snapshot): seq<AccountRecord> {
    seq(|events|, i requires 0 <= i < |events| => MutationRecord(events[i], baseline))
  }

  /** An ingest journals its events in order, all of them unless a conflict stops it. */
  lemma {:induction false} IngestJournals(a: Account, records: seq<AccountRecord>, events: seq<UserEvent>, baseline: Snapshot)
    ensures IngestEvents(a, records, events, baseline).1 <= records + Mutations(events, baseline)
    ensures IngestEvents(a, records, events, baseline).2.Ok? ==>
      IngestEvents(a, records, events, baseline).1 == records + Mutations(events, baseline)
    decreases |events|
  {
    if events == [] {
      assert records + Mutations(events, baseline) == records;
    } else {
      var record := MutationRecord(events[0], baseline);
      IngestJournals(RecordEvent(a, events[0]).0, records + [record], events[1..], baseline);
      assert records + Mutations(events, baseline) == records + [record] + Mutations(events[1..], baseline);
    }
  }

  lemma {:induction false} FailedIngestLatches(a: Account, records: seq<AccountRecord>, events: seq<UserEvent>, baseline: Snapshot)
    requires IngestEvents(a, records, events, baseline).2.Err?
    ensures IngestEvents(a, records, events, baseline).0.latched
    decreases |events|
  {
    if RecordEvent(a, events[0]).1.Ok? {
      FailedIngestLatches(RecordEvent(a, events[0]).0, records + [MutationRecord(events[0], baseline)], events[1..], baseline);
    }
  }

  /**
   * Journaling the venue's trades at startup and recovering again is ingesting them live: the second recovery gives
   * the account the ingest would, and refuses exactly when the ingest would latch.
   */
  lemma StartupMatchesIngest(a: Account, records: seq<AccountRecord>, remote: RemoteTrades)
    requires Mirrored(a, records) && !a.latched
    ensures var after := Ingest(a, records, remote).0;
      var again := Recover(records + StartupRecords(a, remote));
      if after.latched then again.Err? || again.value.safetyLatched
      else again == Ok(Recovered(after.ledger, after.known, AfterRestart(after), false))
  {
    var l, events := Live(a, records), EventsToIngest(a, remote);
    var (after, journaled, outcome) := Ingest(a, records, remote);
    MirroredIsNotDead(a, records);
    EventsToIngestMembers(a, remote);
    IngestKeepsSound(l, events, BaselineOf(a));
    IngestJournals(a, records, events, BaselineOf(a));
    assert StartupRecords(a, remote) == Mutations(events, BaselineOf(a));
    var all := records + StartupRecords(a, remote);
    if after.latched {
      DeadExtends(journaled, all[|journaled|..]);
      assert journaled + all[|journaled|..] == all;
      DeadRefuses(all);
    } else {
      if outcome.Err? {
        FailedIngestLatches(a, records, events, BaselineOf(a));
      }
      RecoverRebuilds(after, all);
    }
  }
}
