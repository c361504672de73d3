/** Whole runs of the live account: recovery from the journal against the state in memory. */
module AccountRuns {
  import opened Prelude
  import opened Ordered
  import opened Book
  import opened AccountLedger
  import opened AccountReconciled
  import opened AccountHoldings
  import opened AccountIngest
  import opened AccountRecovery
  import opened AccountMirror

  datatype Live = Live(account: Account, records: seq<AccountRecord>)

  datatype Action =
    | User(event: UserEvent, lifecycle: nat)
    | Ingested(remote: RemoteTrades)
    | Observed(snapshot: Snapshot)
    | Committed(current: Snapshot, proof: TradeProof)
    | Owned(orderId: string)
    | Latched
    | Restarted(snapshot: Snapshot, owned: set<string>)
    | Interrupted(cut: Cut, snapshot: Snapshot, owned: set<string>)

  /**
   * Where a step stops with more in the journal than in memory: after the records of a user event, after the record of
   * event `n` of an ingest, or after the record of a commit. An append that fails and stays behind is one of these.
   */
  datatype Cut =
    | InUser(event: UserEvent, lifecycle: nat)
    | InIngest(remote: RemoteTrades, n: nat)
    | InCommit(current: Snapshot, proof: TradeProof)

  // ----- Steps -----

  function Others(n: nat): seq<AccountRecord> {
    seq(n, _ => OtherRecord)
  }

  /** `journal_user_event`: the mutation with its baseline first, then the lifecycle records of tracked orders. */
  function Journaled(a: Account, e: UserEvent): seq<AccountRecord> {
    if RequiresReconciliation(e) then [MutationRecord(e, BaselineOf(a))] else []
  }

  /** A start from the journal; one that recovery refuses leaves the session down, which counts as latched. */
  function Resume(l: Live, snapshot: Snapshot, owned: set<string>): Live {
    var recovered := Recover(l.records);
    if recovered.Err? || recovered.value.safetyLatched then l.(account := l.account.(latched := true))
    else
      var r := recovered.value;
      Live(Account(snapshot, r.ledger, r.known, owned + r.known, r.pending, false), l.records)
  }

  function CommitIfReconciled(l: Live, current: Snapshot, proof: TradeProof): Live {
    if l.account.pending.None? || Reconciled(l.account.pending.value, current, proof) != Ok(true) then l
    else if Commit(l.account).Err? then l.(account := l.account.(snapshot := current))
    else
      var (after, record) := Commit(l.account).value;
      Live(after.(snapshot := current), l.records + [record])
  }

  /** The events of an ingest up to and including event `n`. */
  function UpTo(a: Account, remote: RemoteTrades, n: nat): seq<UserEvent> {
    var events := EventsToIngest(a, remote);
    if n < |events| then events[..n + 1] else events
  }

  /** The journal at a cut: what was recorded before it, and the records journaled but not yet applied. */
  function RecordsAt(l: Live, cut: Cut): seq<AccountRecord> {
    match cut
    case InUser(e, n) => l.records + Journaled(l.account, e) + Others(n)
    case InIngest(remote, n) =>
      var events := EventsToIngest(l.account, remote);
      if n >= |events| then IngestEvents(l.account, l.records, events, BaselineOf(l.account)).1
      else
        var (_, records, r) := IngestEvents(l.account, l.records, events[..n], BaselineOf(l.account));
        if r.Err? then records else records + [MutationRecord(events[n], BaselineOf(l.account))]
    case InCommit(current, proof) => CommitIfReconciled(l, current, proof).records
  }

  /** The session the journal at a cut belongs to: the same step with its journaled part applied. */
  function Applied(l: Live, cut: Cut): Live {
    match cut
    case InUser(e, n) => Live(RecordEvent(l.account, e).0, l.records + Journaled(l.account, e) + Others(n))
    case InIngest(remote, n) =>
      var (after, records, _) := IngestEvents(l.account, l.records, UpTo(l.account, remote, n), BaselineOf(l.account));
      Live(after, records)
    case InCommit(current, proof) => CommitIfReconciled(l, current, proof)
  }

  function Perform(l: Live, action: Action): Live {
    match action
    case User(e, n) => Live(RecordEvent(l.account, e).0, l.records + Journaled(l.account, e) + Others(n))
    case Ingested(remote) =>
      var (after, records, _) := Ingest(l.account, l.records, remote);
      Live(after, records)
    case Observed(snapshot) => if l.account.pending.None? then l.(account := l.account.(snapshot := snapshot)) else l
    case Committed(current, proof) => CommitIfReconciled(l, current, proof)
    case Owned(id) => Live(l.account.(owned := l.account.owned + {id}), l.records + [OtherRecord])
    case Latched => l.(account := l.account.(latched := true))
    case Restarted(snapshot, owned) => Resume(l, snapshot, owned)
    case Interrupted(cut, snapshot, owned) => Resume(Live(l.account, RecordsAt(l, cut)), snapshot, owned)
  }

  function Run(l: Live, actions: seq<Action>): Live
    decreases |actions|
  {
    if actions == [] then l else Run(Perform(l, actions[0]), actions[1..])
  }

  // ----- Journals that recovery refuses -----

  /** Recovery of this journal, and of every journal that extends it, errs or latches. */
  ghost predicate Dead(records: seq<AccountRecord>) {
    ReplayAll(records).Err? || SomeInactive(ReplayAll(records).value.ledger)
  }

  lemma DeadRefuses(records: seq<AccountRecord>)
    requires Dead(records)
    ensures Recover(records).Err? || Recover(records).value.safetyLatched
  {
  }

  lemma DeadStays(records: seq<AccountRecord>, record: AccountRecord)
    requires Dead(records)
    ensures Dead(records + [record])
  {
    ReplayAppend(records, record);
    if ReplayAll(records + [record]).Ok? {
      var s, next := ReplayAll(records).value, ReplayAll(records + [record]).value;
      var t :| t in s.ledger && !Classify(s.ledger[t].latestStatus).Active?;
      if record.MutationRecord? && record.event.TradeEvent? {
        LatestStatus(s.ledger[t].latestStatus, record.event.status);
      }
      assert t in next.ledger && !Classify(next.ledger[t].latestStatus).Active?;
    }
  }

  lemma {:induction false} DeadExtends(records: seq<AccountRecord>, more: seq<AccountRecord>)
    requires Dead(records)
    ensures Dead(records + more)
    decreases |more|
  {
    if more == [] {
      assert records + more == records;
    } else {
      DeadStays(records, more[0]);
      DeadExtends(records + [more[0]], more[1..]);
      assert records + [more[0]] + more[1..] == records + more;
    }
  }

  lemma MirroredIsNotDead(a: Account, records: seq<AccountRecord>)
    requires Mirrored(a, records)
    ensures !Dead(records)
  {
  }

  /** An event that trips the latch leaves a journal recovery refuses for good. */
  lemma TripKills(a: Account, records: seq<AccountRecord>, e: UserEvent)
    requires Mirrored(a, records) && Trips(a, e)
    ensures RecordEvent(a, e).0.latched && Dead(records + [MutationRecord(e, BaselineOf(a))])
  {
    ReplayAppend(records, MutationRecord(e, BaselineOf(a)));
    var s := ReplayAll(records).value;
    if !Conflicts(a, e) {
      var next := ReplayTrade(s, e, BaselineOf(a)).value;
      if e.tradeId in s.ledger {
        LatestStatus(s.ledger[e.tradeId].latestStatus, e.status);
      }
      assert !Classify(next.ledger[e.tradeId].latestStatus).Active?;
    }
  }

  // ----- The invariant of every run -----

  /** Either recovery refuses the journal and the account is latched, or the journal mirrors the account. */
  ghost predicate Sound(l: Live) {
    if Dead(l.records) then l.account.latched else Mirrored(l.account, l.records)
  }

  /** A step that latches the account, or starts from a refused journal, leaves a refused journal. */
  ghost predicate LatchIsDead(before: Live, after: Live) {
    (Dead(before.records) || (after.account.latched && !before.account.latched)) ==> Dead(after.records)
  }

  lemma LatchStays(a: Account, e: UserEvent)
    requires a.latched
    ensures RecordEvent(a, e).0.latched
  {
  }

  lemma EventKeepsSound(l: Live, e: UserEvent)
    requires Sound(l) && RequiresReconciliation(e)
    ensures var after := Live(RecordEvent(l.account, e).0, l.records + [MutationRecord(e, BaselineOf(l.account))]);
      Sound(after) && LatchIsDead(l, after)
  {
    var record := MutationRecord(e, BaselineOf(l.account));
    if Dead(l.records) {
      DeadStays(l.records, record);
      LatchStays(l.account, e);
    } else if Trips(l.account, e) {
      TripKills(l.account, l.records, e);
    } else {
      EventKeepsMirror(l.account, l.records, e);
      MirroredIsNotDead(RecordEvent(l.account, e).0, l.records + [record]);
    }
  }

  lemma OthersKeepSound(l: Live, n: nat)
    requires Sound(l)
    ensures Sound(l.(records := l.records + Others(n))) && LatchIsDead(l, l.(records := l.records + Others(n)))
  {
    if Dead(l.records) {
      DeadExtends(l.records, Others(n));
    } else {
      LifecycleKeepsMirror(l.account, l.records, n);
      MirroredIsNotDead(l.account, l.records + Others(n));
    }
  }

  lemma UserKeepsSound(l: Live, e: UserEvent, n: nat)
    requires Sound(l)
    ensures Sound(Perform(l, User(e, n))) && LatchIsDead(l, Perform(l, User(e, n)))
  {
    var after := RecordEvent(l.account, e).0;
    if RequiresReconciliation(e) {
      EventKeepsSound(l, e);
      OthersKeepSound(Live(after, l.records + Journaled(l.account, e)), n);
    } else {
      assert l.records + Journaled(l.account, e) == l.records;
      OthersKeepSound(l, n);
    }
  }

  /** During an ingest the baseline of the next event is the one taken at its start. */
  lemma IngestBaseline(a: Account, e: UserEvent)
    ensures BaselineOf(RecordEvent(a, e).0) == BaselineOf(a)
  {
  }

  lemma {:induction false} IngestKeepsSound(l: Live, events: seq<UserEvent>, baseline: Snapshot)
    requires Sound(l) && baseline == BaselineOf(l.account)
    requires forall e | e in events :: e.TradeEvent?
    ensures var (after, records, _) := IngestEvents(l.account, l.records, events, baseline);
      Sound(Live(after, records)) && LatchIsDead(l, Live(after, records))
    decreases |events|
  {
    if events != [] {
      assert events[0] in events;
      EventKeepsSound(l, events[0]);
      IngestBaseline(l.account, events[0]);
      if RecordEvent(l.account, events[0]).1.Ok? {
        IngestKeepsSound(Live(RecordEvent(l.account, events[0]).0, l.records + [MutationRecord(events[0], baseline)]), events[1..], baseline);
      }
    }
  }

  lemma CommitKeepsSound(l: Live, current: Snapshot, proof: TradeProof)
    requires Sound(l)
    ensures Sound(CommitIfReconciled(l, current, proof)) && LatchIsDead(l, CommitIfReconciled(l, current, proof))
  {
    if CommitIfReconciled(l, current, proof).records != l.records {
      var (after, record) := Commit(l.account).value;
      if Dead(l.records) {
        DeadStays(l.records, record);
      } else {
        ReconciledMeaning(l.account.pending.value, current, proof);
        CommitKeepsMirror(l.account, l.records);
        MirroredIsNotDead(after.(snapshot := current), l.records + [record]);
      }
    }
  }

  /** A restart is possible exactly while the journal mirrors the account. */
  lemma RestartKeepsSound(l: Live, snapshot: Snapshot, owned: set<string>)
    requires Sound(l)
    ensures Sound(Resume(l, snapshot, owned)) && LatchIsDead(l, Resume(l, snapshot, owned))
    ensures !Dead(l.records) ==> var after := Resume(l, snapshot, owned).account;
      && after.ledger == l.account.ledger && after.known == l.account.known && !after.latched
      && after.pending == AfterRestart(l.account)
  {
    if Dead(l.records) {
      DeadRefuses(l.records);
    } else {
      RecoverRebuilds(l.account, l.records);
    }
  }

  lemma {:induction false} ConflictEndsIngest(a: Account, records: seq<AccountRecord>, events: seq<UserEvent>, more: seq<UserEvent>, baseline: Snapshot)
    requires IngestEvents(a, records, events, baseline).2.Err?
    ensures IngestEvents(a, records, events + more, baseline) == IngestEvents(a, records, events, baseline)
    decreases |events|
  {
    assert (events + more)[0] == events[0] && (events + more)[1..] == events[1..] + more;
    if RecordEvent(a, events[0]).1.Ok? {
      ConflictEndsIngest(RecordEvent(a, events[0]).0, records + [MutationRecord(events[0], baseline)], events[1..], more, baseline);
    }
  }

  /** The journal at a cut is the journal of the step with its journaled part applied. */
  lemma CutIsApplied(l: Live, cut: Cut)
    ensures RecordsAt(l, cut) == Applied(l, cut).records
  {
    if cut.InIngest? {
      var events, baseline := EventsToIngest(l.account, cut.remote), BaselineOf(l.account);
      if cut.n < |events| {
        assert events[..cut.n + 1] == events[..cut.n] + [events[cut.n]];
        if IngestEvents(l.account, l.records, events[..cut.n], baseline).2.Ok? {
          IngestSnoc(l.account, l.records, events[..cut.n], events[cut.n], baseline);
        } else {
          ConflictEndsIngest(l.account, l.records, events[..cut.n], [events[cut.n]], baseline);
        }
      }
    }
  }

  lemma AppliedKeepsSound(l: Live, cut: Cut)
    requires Sound(l)
    ensures Sound(Applied(l, cut)) && LatchIsDead(l, Applied(l, cut))
  {
    match cut {
      case InUser(e, n) => UserKeepsSound(l, e, n);
      case InIngest(remote, n) =>
        EventsToIngestMembers(l.account, remote);
        assert forall e | e in UpTo(l.account, remote, n) :: e in EventsToIngest(l.account, remote);
        IngestKeepsSound(l, UpTo(l.account, remote, n), BaselineOf(l.account));
      case InCommit(current, proof) => CommitKeepsSound(l, current, proof);
    }
  }

  lemma DeadResume(l: Live, before: Live, snapshot: Snapshot, owned: set<string>)
    requires Dead(l.records)
    ensures var after := Resume(l, snapshot, owned);
      after.records == l.records && Sound(after) && LatchIsDead(before, after)
  {
    hide Dead, Recover;
    DeadRefuses(l.records);
  }

  /** What was in memory before does not matter to a restart that recovers. */
  lemma ResumeIgnoresMemory(l: Live, account: Account, snapshot: Snapshot, owned: set<string>)
    requires Sound(l) && !Dead(l.records)
    ensures Resume(Live(account, l.records), snapshot, owned) == Resume(l, snapshot, owned)
    ensures Resume(l, snapshot, owned).records == l.records && !Resume(l, snapshot, owned).account.latched
  {
    hide Recover, Mirrored, Dead;
    RecoverRebuilds(l.account, l.records);
  }

  /**
   * A crash, or a failed append that stays in the log, anywhere in a step and then a restart: what was journaled counts
   * as applied, so the restart has the account of the step with its journaled part applied, or is refused for good.
   */
  lemma InterruptionApplies(l: Live, cut: Cut, snapshot: Snapshot, owned: set<string>)
    requires Sound(l)
    ensures var after, applied := Perform(l, Interrupted(cut, snapshot, owned)), Applied(l, cut);
      && Sound(after) && LatchIsDead(l, after) && after.records == applied.records
      && (!Dead(after.records) ==>
            && after.account.ledger == applied.account.ledger && after.account.known == applied.account.known
            && after.account.pending == AfterRestart(applied.account) && !after.account.latched)
  {
    hide Sound, Dead, RecordsAt, Applied, Resume;
    CutIsApplied(l, cut);
    AppliedKeepsSound(l, cut);
    var applied := Applied(l, cut);
    if Dead(applied.records) {
      DeadResume(Live(l.account, applied.records), l, snapshot, owned);
    } else {
      RestartKeepsSound(applied, snapshot, owned);
      ResumeIgnoresMemory(applied, l.account, snapshot, owned);
    }
  }

  lemma StepKeepsSound(l: Live, action: Action)
    requires Sound(l)
    ensures Sound(Perform(l, action)) && (action.Latched? || LatchIsDead(l, Perform(l, action)))
  {
    match action {
      case User(e, n) => UserKeepsSound(l, e, n);
      case Ingested(remote) =>
        EventsToIngestMembers(l.account, remote);
        IngestKeepsSound(l, EventsToIngest(l.account, remote), BaselineOf(l.account));
      case Observed(_) =>
      case Committed(current, proof) => CommitKeepsSound(l, current, proof);
      case Owned(_) =>
        assert Others(1) == [OtherRecord];
        OthersKeepSound(l, 1);
      case Latched =>
      case Restarted(snapshot, owned) => RestartKeepsSound(l, snapshot, owned);
      case Interrupted(cut, snapshot, owned) => InterruptionApplies(l, cut, snapshot, owned);
    }
  }

  lemma {:induction false} RunKeepsSound(l: Live, actions: seq<Action>)
    requires Sound(l)
    ensures Sound(Run(l, actions))
    decreases |actions|
  {
    if actions != [] {
      StepKeepsSound(l, actions[0]);
      RunKeepsSound(Perform(l, actions[0]), actions[1..]);
    }
  }

  /** Without other causes, the account is latched exactly when recovery refuses its journal. */
  lemma {:induction false} RunLatch(l: Live, actions: seq<Action>)
    requires Sound(l) && (l.account.latched ==> Dead(l.records))
    requires forall x | x in actions :: !x.Latched?
    ensures Run(l, actions).account.latched <==> Dead(Run(l, actions).records)
    decreases |actions|
  {
    if actions != [] {
      StepKeepsSound(l, actions[0]);
      RunLatch(Perform(l, actions[0]), actions[1..]);
    }
  }

  function FirstStart(snapshot: Snapshot, owned: set<string>): Live {
    Live(Account(snapshot, map[], {}, owned, None, false), [])
  }

  /**
   * After every run, restarts included: while the account is not latched, recovery from the journal gives the ledger,
   * the known ids, and the pending trades, orders and baseline in memory, and does not latch.
   */
  lemma RunRecovers(snapshot: Snapshot, owned: set<string>, actions: seq<Action>)
    ensures var l := Run(FirstStart(snapshot, owned), actions);
      && (!l.account.latched ==> Recover(l.records) == Ok(Recovered(l.account.ledger, l.account.known, AfterRestart(l.account), false)))
      && (Recover(l.records).Err? || Recover(l.records).value.safetyLatched <==> Dead(l.records))
      && (Dead(l.records) ==> l.account.latched)
  {
    RunKeepsSound(FirstStart(snapshot, owned), actions);
    var l := Run(FirstStart(snapshot, owned), actions);
    if Dead(l.records) {
      DeadRefuses(l.records);
    } else {
      RecoverRebuilds(l.account, l.records);
    }
  }

  // ----- Crash points -----

  /** A crash after the event is journaled and before it is recorded recovers the state after recording it. */
  lemma CrashBeforeRecording(a: Account, records: seq<AccountRecord>, e: UserEvent)
    requires Mirrored(a, records) && RequiresReconciliation(e) && !Trips(a, e)
    ensures var after := RecordEvent(a, e).0;
      Recover(records + [MutationRecord(e, BaselineOf(a))]) == Ok(Recovered(after.ledger, after.known, AfterRestart(after), false))
  {
    EventKeepsMirror(a, records, e);
    RecoverRebuilds(RecordEvent(a, e).0, records + [MutationRecord(e, BaselineOf(a))]);
  }

  /** A crash after a commit is journaled and before memory changes recovers the state after the commit. */
  lemma CrashBeforeCommitting(a: Account, records: seq<AccountRecord>)
    requires Mirrored(a, records) && a.pending.Some? && a.pending.value.unresolved == {}
    ensures Commit(a).Ok?
    ensures var (after, record) := Commit(a).value;
      Recover(records + [record]) == Ok(Recovered(after.ledger, after.known, None, false))
  {
    CommitKeepsMirror(a, records);
    var (after, record) := Commit(a).value;
    RecoverRebuilds(after, records + [record]);
  }

  // ----- What the recovered latch stands for -----

  ghost predicate JournaledInactive(records: seq<AccountRecord>) {
    exists r :: r in records && r.MutationRecord? && r.event.TradeEvent? && !Classify(r.event.status).Active?
  }

  lemma {:induction false} LatchMeaning(records: seq<AccountRecord>)
    requires ReplayAll(records).Ok?
    ensures SomeInactive(ReplayAll(records).value.ledger) <==> JournaledInactive(records)
    decreases |records|
  {
    if records != [] {
      var rest, last := records[..|records| - 1], records[|records| - 1];
      assert records == rest + [last];
      assert forall r :: r in records <==> r == last || r in rest;
      LatchMeaning(rest);
      InactiveStep(ReplayAll(rest).value, last);
    }
  }

  lemma InactiveUnion(before: map<string, LedgerEntry>, after: map<string, LedgerEntry>, k: string)
    requires after.Keys == before.Keys + {k}
    requires forall t | t in before && t != k :: after[t] == before[t]
    requires k in before && !Classify(before[k].latestStatus).Active? ==> !Classify(after[k].latestStatus).Active?
    ensures SomeInactive(after) <==> SomeInactive(before) || !Classify(after[k].latestStatus).Active?
  {
    if t :| t in before && !Classify(before[t].latestStatus).Active? {
      assert t in after && !Classify(after[t].latestStatus).Active?;
    }
    if t :| t in after && t != k && !Classify(after[t].latestStatus).Active? {
      assert t in before && !Classify(before[t].latestStatus).Active?;
    }
  }

  lemma InactiveStep(s: Replay, record: AccountRecord)
    requires ReplayRecord(s, record).Ok?
    ensures SomeInactive(ReplayRecord(s, record).value.ledger) <==>
      SomeInactive(s.ledger) || (record.MutationRecord? && record.event.TradeEvent? && !Classify(record.event.status).Active?)
  {
    var next := ReplayRecord(s, record).value;
    if record.MutationRecord? && record.event.TradeEvent? {
      var e := record.event;
      if e.tradeId in s.ledger {
        LatestStatus(s.ledger[e.tradeId].latestStatus, e.status);
      }
      assert forall t | t in next.ledger && t != e.tradeId :: t in s.ledger && next.ledger[t] == s.ledger[t];
      assert Classify(next.ledger[e.tradeId].latestStatus).Active? <==>
        Classify(e.status).Active? && (e.tradeId in s.ledger ==> Classify(s.ledger[e.tradeId].latestStatus).Active?);
      InactiveUnion(s.ledger, next.ledger, e.tradeId);
    } else if record.ReconciledRecord? {
      assert next.ledger.Keys == s.ledger.Keys;
      assert forall t | t in s.ledger :: next.ledger[t].latestStatus == s.ledger[t].latestStatus;
    }
  }

  /** A successful recovery latches exactly when some journaled trade event was failed or unknown. */
  lemma RecoveredLatch(records: seq<AccountRecord>)
    requires Recover(records).Ok?
    ensures Recover(records).value.safetyLatched <==> JournaledInactive(records)
  {
    LatchMeaning(records);
  }

  // ----- Why the run must not be latched -----

  /** A pending trade that then fails stays pending in memory, while recovery no longer counts it. */
  lemma FailedTradeDiverges(a: Account, records: seq<AccountRecord>, e: UserEvent)
    requires Mirrored(a, records) && a.pending.Some? && e.TradeEvent? && e.tradeId in a.pending.value.trades
    requires a.pending.value.trades[e.tradeId] == MutationOf(e) && !Classify(e.status).Active?
    ensures var after, journaled := RecordEvent(a, e).0, records + [MutationRecord(e, BaselineOf(a))];
      && after.latched && after.pending == a.pending
      && (Recover(journaled).Ok? && Recover(journaled).value.pending.Some? ==>
            e.tradeId !in Recover(journaled).value.pending.value.trades)
  {
    TripKills(a, records, e);
    ReplayAppend(records, MutationRecord(e, BaselineOf(a)));
    LatestStatus(a.ledger[e.tradeId].latestStatus, e.status);
  }
}
