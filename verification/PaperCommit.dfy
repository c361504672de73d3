/** Durable paper transitions: the staged engine is journaled before it becomes the current one. */
module PaperCommit {
  import opened Prelude
  import opened PaperCore
  import opened PaperMachine
  import Decimal
  import FixedPoint
  import J = Journal

  const TRANSITION_SCHEMA_VERSION := 1
  const COMPACT_RECORDS := 512

  datatype Transition = Transition(
    schemaVersion: nat, reason: string, committedAt: nat, engine: Engine, fills: seq<Fill>, cancelledIds: seq<string>)

  datatype Codec = Codec(encode: Transition -> string, decode: string -> Result<Transition>)

  ghost predicate Lossless(codec: Codec) {
    forall t :: codec.decode(codec.encode(t)) == Ok(t)
  }

  datatype Settings = Settings(startingCash: int, feeBps: nat, participationBps: nat, assetIds: set<string>)

  predicate Fits(e: Engine, settings: Settings) {
    ConfigurationMatches(e, settings.startingCash, settings.feeBps, settings.participationBps)
    && UsesOnlyAssets(e, settings.assetIds)
  }

  // ----- Recovery -----

  predicate Dedicated(records: seq<J.Record>) {
    forall r | r in records :: r.entry.kind.PaperTransition?
  }

  /** `recover_paper_engine` on the records of a verified journal. */
  function Recover(records: seq<J.Record>, codec: Codec, settings: Settings): Result<Engine> {
    if !Dedicated(records) then Err("paper_mode_requires_a_dedicated_journal")
    else if records == [] then NewEngine(settings.startingCash, settings.feeBps, settings.participationBps)
    else
      var t :- codec.decode(records[|records| - 1].entry.payload);
      if t.schemaVersion != TRANSITION_SCHEMA_VERSION || !Fits(t.engine, settings) then
        Err("paper_transition_configuration_mismatch")
      else
        var _ :- ValidateState(t.engine);
        Ok(t.engine)
  }

  method RecoverPaperEngine(journal: J.Journal, codec: Codec, settings: Settings) returns (r: Result<Engine>)
    ensures J.Verify(journal.disk, journal.h).Ok? ==> r == Recover(journal.disk.log, codec, settings)
    ensures J.Verify(journal.disk, journal.h).Err? ==> r.Err?
  {
    var records :- journal.RecordsLocked();
    if exists r | r in records :: !r.entry.kind.PaperTransition? {
      return Err("paper_mode_requires_a_dedicated_journal");
    }
    if records == [] {
      return NewEngine(settings.startingCash, settings.feeBps, settings.participationBps);
    }
    var t :- codec.decode(records[|records| - 1].entry.payload);
    if t.schemaVersion != TRANSITION_SCHEMA_VERSION || !Fits(t.engine, settings) {
      return Err("paper_transition_configuration_mismatch");
    }
    var _ :- ValidateState(t.engine);
    return Ok(t.engine);
  }

  /** A state that passes, field by field, for these settings. */
  ghost predicate Restorable(e: Engine, settings: Settings) {
    && e.startingCash == settings.startingCash > 0 && e.cash >= 0 && e.feesPaid >= 0
    && e.feeBps == settings.feeBps <= 10_000 && 0 < e.participationBps == settings.participationBps <= 10_000
    && (forall a | a in e.positions :: a in settings.assetIds && Holds(e.positions[a], a))
    && (forall id | id in e.orders :: e.orders[id].intent.assetId in settings.assetIds && Tracks(e.orders[id], id))
  }

  ghost predicate Holds(p: Position, assetId: string) {
    p.assetId == assetId && p.size >= 0 && 0 <= p.averagePrice <= 1_000_000
  }

  ghost predicate Tracks(o: Order, id: string) {
    && o.clientOrderId == id && o.filledSize >= 0 && o.remainingSize >= 0 && o.feesPaid >= 0
    && o.filledSize + o.remainingSize == o.intent.size <= FixedPoint.MAX
  }

  /** Which engine a list of records restores: a new one without records, else the one in the last record. */
  ghost predicate Restores(records: seq<J.Record>, codec: Codec, settings: Settings, e: Engine) {
    && (forall r | r in records :: r.entry.kind == J.PaperTransition)
    && (records == [] ==>
          && 0 < settings.startingCash && settings.feeBps <= 10_000 && 0 < settings.participationBps <= 10_000
          && e == Engine(settings.startingCash, settings.startingCash, 0, 0, settings.feeBps, settings.participationBps, map[], map[]))
    && (records != [] ==> exists t ::
          codec.decode(records[|records| - 1].entry.payload) == Ok(t) && t.schemaVersion == 1 && t.engine == e && Restorable(e, settings))
  }

  lemma ValidMeaning(e: Engine, settings: Settings)
    ensures Fits(e, settings) && ValidateState(e).Ok? <==> Restorable(e, settings)
  {
    assert forall a | a in e.positions :: PositionValid(a, e.positions[a]) <==> Holds(e.positions[a], a);
    assert forall id | id in e.orders :: OrderValid(id, e.orders[id]) <==> Tracks(e.orders[id], id);
  }

  /** A recovery yields an engine exactly when the records restore it. */
  lemma RecoverMeaning(records: seq<J.Record>, codec: Codec, settings: Settings, e: Engine)
    ensures Recover(records, codec, settings) == Ok(e) <==> Restores(records, codec, settings, e)
  {
    ValidMeaning(e, settings);
  }

  // ----- Committing -----

  /** What a caller stages: an engine, what happened on the way to it, and a new transition id. */
  datatype Staged = Staged(
    engine: Engine, fills: seq<Fill>, cancelledIds: seq<string>, reason: string, now: nat, transitionId: string)

  /** The outcome of the file operations; `large` says that the log has reached its byte limit. */
  datatype CommitIo = CommitIo(append: J.AppendIo, large: bool, compact: J.CompactIo, appendedAt: nat, compactedAt: nat)

  datatype Paper = Paper(engine: Engine, journal: J.State)

  datatype World = World(startup: J.Startup, h: J.HashFn, codec: Codec, settings: Settings)

  function TransitionOf(x: Staged): Transition {
    Transition(TRANSITION_SCHEMA_VERSION, x.reason, x.now, Pruned(x.engine), x.fills, x.cancelledIds)
  }

  function AppendEntry(x: Staged, codec: Codec): J.Entry {
    J.Entry(J.PaperTransition, x.transitionId, x.transitionId, None, "paper", codec.encode(TransitionOf(x)), [])
  }

  function CompactEntry(x: Staged, s: J.State, codec: Codec): J.Entry {
    J.Entry(J.PaperTransition, x.transitionId, x.transitionId, None, "paper", codec.encode(TransitionOf(x)),
            ["compacted_records:" + Decimal.Digits(s.nextSequence), "compacted_root:" + s.lastHash])
  }

  predicate Compacts(s: J.State, io: CommitIo, w: World) {
    (s.nextSequence >= COMPACT_RECORDS || io.large) && J.Verify(s.disk, w.h).Ok? && Dedicated(s.disk.log)
  }

  /** The journal once the append has gone through: compacted when that is due, with a warning where it did not work. */
  function Maintained(s: J.State, x: Staged, io: CommitIo, w: World): J.State {
    if Compacts(s, io, w) then
      var after := J.Compacted(s, w.startup, io.compactedAt, CompactEntry(x, s, w.codec), io.compact, w.h);
      if J.CompactSucceeds(s, io.compact) then after else after.(warned := true)
    else if s.nextSequence >= COMPACT_RECORDS || io.large then s.(warned := true)
    else s
  }

  function CommitAppended(p: Paper, x: Staged, io: CommitIo, w: World): J.State {
    J.Appended(p.journal, w.startup, io.appendedAt, AppendEntry(x, w.codec), io.append, w.h)
  }

  /** `commit_paper_transition`. */
  function Commit(p: Paper, x: Staged, io: CommitIo, w: World): (Paper, Result<()>) {
    var valid := ValidateState(Pruned(x.engine));
    if valid.Err? then (p, valid)
    else
      var s := CommitAppended(p, x, io, w);
      if !J.Commits(p.journal, io.append) then (Paper(p.engine, s), Err("journal_append_failed_and_poisoned"))
      else (Paper(Pruned(x.engine), Maintained(s, x, io, w)), Ok(()))
  }

  /** Every disk a crash during the commit can leave, in order. */
  function CommitCrashes(p: Paper, x: Staged, io: CommitIo, w: World): seq<J.Disk> {
    if ValidateState(Pruned(x.engine)).Err? then [p.journal.disk]
    else
      var s := CommitAppended(p, x, io, w);
      J.AppendCrashes(p.journal, w.startup, io.appendedAt, AppendEntry(x, w.codec), io.append, w.h)
      + (if J.Commits(p.journal, io.append) && Compacts(s, io, w)
         then J.CompactCrashes(s, w.startup, io.compactedAt, CompactEntry(x, s, w.codec), io.compact, w.h) else [])
  }

  // ----- What is recovered -----

  /** The engine a disk holds. */
  function EngineOn(d: J.Disk, w: World): Result<Engine> {
    Recover(d.log, w.codec, w.settings)
  }

  /** The disk can be opened and holds `e`. */
  ghost predicate Stores(d: J.Disk, e: Engine, w: World) {
    J.Verify(d, w.h).Ok? && EngineOn(d, w) == Ok(e)
  }

  predicate Committable(x: Staged, w: World) {
    Fits(Pruned(x.engine), w.settings) && x.transitionId != "" && J.Complete(w.startup, AppendEntry(x, w.codec))
  }

  /** A log that ends in the transition holds its engine. */
  lemma TransitionHeld(x: Staged, log: seq<J.Record>, r: J.Record, w: World)
    requires Lossless(w.codec) && Committable(x, w) && ValidateState(Pruned(x.engine)).Ok?
    requires Dedicated(log) && r.entry.kind.PaperTransition? && r.entry.payload == w.codec.encode(TransitionOf(x))
    ensures Recover(log + [r], w.codec, w.settings) == Ok(Pruned(x.engine))
  {
    var longer := log + [r];
    assert forall q | q in longer :: q in log || q == r;
    assert longer[|longer| - 1] == r;
  }

  /** Before and after the appended line: a crash leaves the engine before or the engine after. */
  lemma AppendStores(p: Paper, x: Staged, io: CommitIo, w: World, d: J.Disk)
    requires Lossless(w.codec) && Committable(x, w) && ValidateState(Pruned(x.engine)).Ok?
    requires J.Inv(p.journal, w.h) && Stores(p.journal.disk, p.engine, w)
    requires d in J.AppendCrashes(p.journal, w.startup, io.appendedAt, AppendEntry(x, w.codec), io.append, w.h)
      || d == CommitAppended(p, x, io, w).disk
    ensures Stores(d, p.engine, w) || Stores(d, Pruned(x.engine), w)
    ensures J.Commits(p.journal, io.append) && d == CommitAppended(p, x, io, w).disk ==> Stores(d, Pruned(x.engine), w)
  {
    var entry := AppendEntry(x, w.codec);
    J.AppendCrashSafe(p.journal, w.startup, io.appendedAt, entry, io.append, w.h);
    TransitionHeld(x, p.journal.disk.log, J.AppendedRecord(p.journal, w.startup, io.appendedAt, entry, w.h), w);
  }

  /** Compaction replaces the log by one line that holds the same engine, so no crash in it loses or adds anything. */
  lemma CompactStores(s: J.State, x: Staged, io: CommitIo, w: World, d: J.Disk)
    requires Lossless(w.codec) && Committable(x, w) && ValidateState(Pruned(x.engine)).Ok?
    requires J.Inv(s, w.h) && Stores(s.disk, Pruned(x.engine), w)
    requires io.compact.remove.NothingToRemove? ==> s.disk.checkpoint.None?
    requires d in J.CompactCrashes(s, w.startup, io.compactedAt, CompactEntry(x, s, w.codec), io.compact, w.h)
      || d == J.Compacted(s, w.startup, io.compactedAt, CompactEntry(x, s, w.codec), io.compact, w.h).disk
    ensures Stores(d, Pruned(x.engine), w)
    ensures J.Inv(J.Compacted(s, w.startup, io.compactedAt, CompactEntry(x, s, w.codec), io.compact, w.h), w.h)
  {
    var entry := CompactEntry(x, s, w.codec);
    J.CompactCrashSafe(s, w.startup, io.compactedAt, entry, io.compact, w.h);
    var r := J.CompactedRecord(w.startup, io.compactedAt, entry, w.h);
    TransitionHeld(x, [], r, w);
    assert [] + [r] == [r];
  }

  /** The system removes a checkpoint whenever there is one. */
  predicate IoConsistent(p: Paper, x: Staged, io: CommitIo, w: World) {
    io.compact.remove.NothingToRemove? ==> CommitAppended(p, x, io, w).disk.checkpoint.None?
  }

  ghost predicate Durable(p: Paper, w: World) {
    J.Inv(p.journal, w.h) && Stores(p.journal.disk, p.engine, w)
  }

  /** A commit that succeeds is durable; one that fails keeps the engine in memory, and the disk holds it or the staged one. */
  lemma CommitOutcome(p: Paper, x: Staged, io: CommitIo, w: World)
    requires Lossless(w.codec) && Committable(x, w) && IoConsistent(p, x, io, w) && Durable(p, w)
    ensures var (after, r) := Commit(p, x, io, w);
      && J.Inv(after.journal, w.h)
      && (r.Ok? ==> after.engine == Pruned(x.engine) && Durable(after, w))
      && (r.Err? ==> after.engine == p.engine)
      && (r.Err? ==> Stores(after.journal.disk, p.engine, w)
                     || (ValidateState(Pruned(x.engine)).Ok? && Stores(after.journal.disk, Pruned(x.engine), w)))
      && (r.Err? && io.append.truncateOk ==> Stores(after.journal.disk, p.engine, w))
  {
    if ValidateState(Pruned(x.engine)).Ok? {
      var s := CommitAppended(p, x, io, w);
      J.AppendCrashSafe(p.journal, w.startup, io.appendedAt, AppendEntry(x, w.codec), io.append, w.h);
      AppendStores(p, x, io, w, s.disk);
      if J.Commits(p.journal, io.append) && Compacts(s, io, w) {
        CompactStores(s, x, io, w, J.Compacted(s, w.startup, io.compactedAt, CompactEntry(x, s, w.codec), io.compact, w.h).disk);
      }
    }
  }

  /** At every crash point of a commit the disk opens and holds the engine before it or the engine after it. */
  lemma CommitCrashSafe(p: Paper, x: Staged, io: CommitIo, w: World, i: nat)
    requires Lossless(w.codec) && Committable(x, w) && IoConsistent(p, x, io, w) && Durable(p, w)
    requires i < |CommitCrashes(p, x, io, w)|
    ensures var d := CommitCrashes(p, x, io, w)[i];
      Stores(d, p.engine, w) || (ValidateState(Pruned(x.engine)).Ok? && Stores(d, Pruned(x.engine), w))
  {
    if ValidateState(Pruned(x.engine)).Ok? {
      var s := CommitAppended(p, x, io, w);
      var appends := J.AppendCrashes(p.journal, w.startup, io.appendedAt, AppendEntry(x, w.codec), io.append, w.h);
      if i < |appends| {
        AppendStores(p, x, io, w, appends[i]);
      } else {
        J.AppendCrashSafe(p.journal, w.startup, io.appendedAt, AppendEntry(x, w.codec), io.append, w.h);
        AppendStores(p, x, io, w, s.disk);
        CompactStores(s, x, io, w, CommitCrashes(p, x, io, w)[i]);
      }
    }
  }

  /** The journal between the append and the compaction. */
  lemma AppendHolds(p: Paper, x: Staged, io: CommitIo, w: World)
    requires Lossless(w.codec) && Committable(x, w) && Durable(p, w) && J.Commits(p.journal, io.append)
    ensures var s, old_ := CommitAppended(p, x, io, w), p.journal.disk.log;
      && J.Verify(s.disk, w.h).Ok? && Dedicated(s.disk.log) && !s.poisoned && s.nextSequence == p.journal.nextSequence + 1
      && |s.disk.log| == |old_| + 1 && s.disk.log[..|old_|] == old_
      && s.disk.log[|old_|].entry.payload == w.codec.encode(TransitionOf(x))
  {
    assert Dedicated(p.journal.disk.log);
    hide J.Verify, ValidateState, Recover, Fits;
    var s := CommitAppended(p, x, io, w);
    J.AppendCrashSafe(p.journal, w.startup, io.appendedAt, AppendEntry(x, w.codec), io.append, w.h);
    assert forall r | r in s.disk.log :: r in p.journal.disk.log || r == s.disk.log[|s.disk.log| - 1];
  }

  /** Compaction is due from 512 records on, or past the byte limit. */
  ghost predicate Due(p: Paper, io: CommitIo) {
    p.journal.nextSequence + 1 >= 512 || io.large
  }

  /**
   * What a commit that succeeds leaves: the last line holds the whole transition, after the old lines, or alone when a due
   * compaction of a dedicated log went through.
   */
  lemma CommitStored(p: Paper, x: Staged, io: CommitIo, w: World)
    requires Lossless(w.codec) && Committable(x, w) && Durable(p, w)
    requires Commit(p, x, io, w).1.Ok?
    ensures var (after, _) := Commit(p, x, io, w);
      var old_, log := p.journal.disk.log, after.journal.disk.log;
      && log != []
      && w.codec.decode(log[|log| - 1].entry.payload) == Ok(Transition(1, x.reason, x.now, after.engine, x.fills, x.cancelledIds))
      && (Due(p, io) && J.CompactSucceeds(CommitAppended(p, x, io, w), io.compact) ==> |log| == 1)
      && (!(Due(p, io) && J.CompactSucceeds(CommitAppended(p, x, io, w), io.compact)) ==>
            |log| == |old_| + 1 && log[..|old_|] == old_)
  {
    hide J.Verify, J.Appended, CommitAppended, ValidateState, Recover, Fits, Dedicated;
    AppendHolds(p, x, io, w);
    assert w.codec.decode(w.codec.encode(TransitionOf(x))) == Ok(TransitionOf(x));
  }

  // ----- The method -----

  /** The state of a journal and an engine object, committed in place. */
  method CommitPaperTransition(journal: J.Journal, current: PaperEngine, x: Staged, io: CommitIo, w: World) returns (r: Result<()>)
    requires journal.startup == w.startup && journal.h == w.h
    requires ConfigurationMatches(x.engine, current.startingCash, current.feeBps, current.participationBps)
    modifies journal, current
    ensures (Paper(current.View(), journal.View()), r) == Commit(Paper(old(current.View()), old(journal.View())), x, io, w)
    ensures journal.crashes == old(journal.crashes)
      || journal.crashes == old(journal.crashes) + CommitCrashes(Paper(old(current.View()), old(journal.View())), x, io, w)
  {
    ghost var p := Paper(current.View(), journal.View());
    var staged := Pruned(x.engine);
    var valid := ValidateState(staged);
    if valid.Err? {
      return valid;
    }
    var appended := journal.AppendEvent(AppendEntry(x, w.codec), io.appendedAt, io.append);
    if appended.Err? {
      return Err("journal_append_failed_and_poisoned");
    }
    ghost var s := journal.View();
    current.Become(staged);
    r := Ok(());
    if journal.nextSequence >= COMPACT_RECORDS || io.large {
      var records := journal.RecordsLocked();
      if records.Err? || !Dedicated(records.value) {
        journal.warned := true;
      } else {
        var compacted := journal.CompactPaperHistory(CompactEntry(x, journal.View(), w.codec), io.compactedAt, io.compact);
        if compacted.Err? {
          journal.warned := true;
        }
      }
    }
  }
}
