/**
 * Append-only hash-chained log with a checkpoint file, rollback of failed appends, and compaction.
 * Writes are whole lines; the hash is any function of a record's other fields.
 */
module Journal {
  import opened Prelude
  import opened FixedPoint

  const GENESIS_HASH := "GENESIS"
  const SCHEMA_VERSION := 2

  datatype Kind = WriteAhead | PaperTransition | AccountMutation | Submitted | Acknowledged | Rejected
    | PartiallyFilled | Filled | CancelRequested | Cancelled | Reconciled

  datatype Entry = Entry(
    kind: Kind, decisionId: string, clientOrderId: string, exchangeOrderId: Option<string>,
    strategyId: string, payload: string, sourceEventRefs: seq<string>)

  datatype Startup = Startup(processId: string, configHash: string, binaryHash: string)

  datatype Record = Record(
    schemaVersion: nat, sequence: nat, startup: Startup, timestamp: nat, previousHash: string, hash: string, entry: Entry)

  datatype Checkpoint = Checkpoint(nextSequence: nat, lastHash: string)

  /** What survives a crash. */
  datatype Disk = Disk(log: seq<Record>, checkpoint: Option<Checkpoint>)

  type HashFn = Record -> string

  function Material(r: Record): Record {
    r.(hash := "")
  }

  function NewRecord(sequence: nat, previousHash: string, startup: Startup, timestamp: nat, entry: Entry, h: HashFn): Record {
    var blank := Record(SCHEMA_VERSION, sequence, startup, timestamp, previousHash, "", entry);
    blank.(hash := h(blank))
  }

  // ----- Verification -----

  function LineError(r: Record, h: HashFn): Option<string> {
    if r.schemaVersion != SCHEMA_VERSION then Some("unsupported_schema_version")
    else if r.startup.processId == "" || r.startup.configHash == "" || r.startup.binaryHash == ""
      || r.entry.clientOrderId == "" then Some("journal_record_missing_required_field")
    else if r.hash != h(Material(r)) then Some("record_hash_mismatch")
    else None
  }

  predicate Names(c: Option<Checkpoint>, sequence: nat, hash: string) {
    c.Some? && c.value.nextSequence == sequence && c.value.lastHash == hash
  }

  datatype Verification = Verification(nextSequence: nat, lastHash: string)

  function VerifyFrom(log: seq<Record>, c: Option<Checkpoint>, sequence: nat, previous: string, matched: bool, h: HashFn): Result<Verification>
    decreases |log|
  {
    if log == [] then
      if c.Some? && (c.value.nextSequence > sequence || !matched) then Err("checkpoint_mismatch")
      else Ok(Verification(sequence, previous))
    else
      var r := log[0];
      var error := LineError(r, h);
      if error.Some? then Err(error.value)
      else if r.sequence != sequence then Err("sequence_gap")
      else if r.previousHash != previous then Err("previous_hash_mismatch")
      else if sequence + 1 > U64_MAX then Err("journal_sequence_exhausted")
      else VerifyFrom(log[1..], c, sequence + 1, r.hash, matched || Names(c, sequence + 1, r.hash), h)
  }

  function Verify(d: Disk, h: HashFn): Result<Verification> {
    VerifyFrom(d.log, d.checkpoint, 0, GENESIS_HASH, d.checkpoint.Some? && d.checkpoint.value.nextSequence == 0, h)
  }

  method VerifyReader(d: Disk, h: HashFn) returns (v: Result<Verification>)
    ensures v == Verify(d, h)
  {
    var expectedPrevious := GENESIS_HASH;
    var expectedSequence: nat := 0;
    var matched := d.checkpoint.Some? && d.checkpoint.value.nextSequence == 0;
    assert d.log[0..] == d.log;
    for i := 0 to |d.log|
      invariant VerifyFrom(d.log[i..], d.checkpoint, expectedSequence, expectedPrevious, matched, h) == Verify(d, h)
    {
      var r := d.log[i];
      assert d.log[i..][1..] == d.log[i + 1..];
      var error := LineError(r, h);
      if error.Some? {
        return Err(error.value);
      }
      if r.sequence != expectedSequence {
        return Err("sequence_gap");
      }
      if r.previousHash != expectedPrevious {
        return Err("previous_hash_mismatch");
      }
      expectedPrevious := r.hash;
      expectedSequence := expectedSequence + 1;
      if expectedSequence > U64_MAX {
        return Err("journal_sequence_exhausted");
      }
      if Names(d.checkpoint, expectedSequence, expectedPrevious) {
        matched := true;
      }
    }
    if d.checkpoint.Some? && (d.checkpoint.value.nextSequence > expectedSequence || !matched) {
      return Err("checkpoint_mismatch");
    }
    return Ok(Verification(expectedSequence, expectedPrevious));
  }

  function LastHash(log: seq<Record>): string {
    if log == [] then GENESIS_HASH else log[|log| - 1].hash
  }

  /** A line by itself: version 2, the four required fields, and the hash of everything else in it. */
  ghost predicate Sound(r: Record, h: HashFn) {
    && r.schemaVersion == 2
    && r.startup.processId != "" && r.startup.configHash != "" && r.startup.binaryHash != "" && r.entry.clientOrderId != ""
    && r.hash == h(r.(hash := ""))
  }

  /** A line in its place: sound, numbered from zero, and linked to the one before it. */
  ghost predicate Linked(log: seq<Record>, i: nat, h: HashFn)
    requires i < |log|
  {
    Sound(log[i], h) && log[i].sequence == i && log[i].previousHash == if i == 0 then "GENESIS" else log[i - 1].hash
  }

  ghost predicate Chained(log: seq<Record>, h: HashFn) {
    forall i: nat | i < |log| :: Linked(log, i, h)
  }

  ghost predicate NamesPrefix(c: Option<Checkpoint>, log: seq<Record>) {
    c.None? || c.value.nextSequence == 0
    || (c.value.nextSequence <= |log| && c.value.lastHash == log[c.value.nextSequence - 1].hash)
  }

  lemma LineMeaning(r: Record, h: HashFn)
    ensures LineError(r, h).None? <==> Sound(r, h)
  {
  }

  lemma ChainedAppend(log: seq<Record>, r: Record, h: HashFn)
    requires Chained(log, h)
    ensures Chained(log + [r], h) <==> LineError(r, h).None? && r.sequence == |log| && r.previousHash == LastHash(log)
  {
    hide Sound, LineError;
    LineMeaning(r, h);
    var longer := log + [r];
    forall i: nat | i < |log| ensures Linked(longer, i, h) <==> Linked(log, i, h) {
      assert longer[i] == log[i] && (i > 0 ==> longer[i - 1] == log[i - 1]);
    }
    assert longer[|log|] == r && (log != [] ==> longer[|log| - 1] == log[|log| - 1]);
    assert Linked(longer, |log|, h) <==> LineError(r, h).None? && r.sequence == |log| && r.previousHash == LastHash(log);
  }

  /** A line the scan accepts after `pre`. */
  predicate Follows(r: Record, pre: seq<Record>, h: HashFn) {
    LineError(r, h).None? && r.sequence == |pre| && r.previousHash == LastHash(pre) && |pre| + 1 <= U64_MAX
  }

  /** The scan's flag says whether the checkpoint names a prefix of what was read. */
  lemma FlagStep(c: Option<Checkpoint>, pre: seq<Record>, r: Record)
    requires c.Some?
    ensures NamesPrefix(c, pre) || Names(c, |pre| + 1, r.hash) <==> NamesPrefix(c, pre + [r])
  {
    assert forall i | 0 <= i < |pre| :: (pre + [r])[i] == pre[i];
  }

  lemma BadLineBreaksChain(pre: seq<Record>, log: seq<Record>, h: HashFn)
    requires log != [] && !Follows(log[0], pre, h) && Chained(pre + log, h)
    ensures |pre + log| > U64_MAX
  {
    hide Sound, LineError;
    LineMeaning(log[0], h);
    var all := pre + log;
    assert Linked(all, |pre|, h);
    assert all[|pre|] == log[0] && (pre != [] ==> all[|pre| - 1] == pre[|pre| - 1]);
  }

  lemma {:induction false} VerifyFromMeaning(pre: seq<Record>, log: seq<Record>, c: Option<Checkpoint>, h: HashFn)
    requires Chained(pre, h) && |pre| <= U64_MAX
    ensures var v := VerifyFrom(log, c, |pre|, LastHash(pre), c.Some? && NamesPrefix(c, pre), h);
      && (v.Ok? <==> Chained(pre + log, h) && |pre + log| <= U64_MAX && NamesPrefix(c, pre + log))
      && (v.Ok? ==> v.value == Verification(|pre + log|, LastHash(pre + log)))
    decreases |log|
  {
    hide Sound, LineError, Chained;
    if log == [] {
      assert pre + log == pre;
    } else if Follows(log[0], pre, h) {
      var longer := pre + [log[0]];
      assert longer + log[1..] == pre + log;
      ChainedAppend(pre, log[0], h);
      if c.Some? {
        FlagStep(c, pre, log[0]);
      }
      VerifyFromMeaning(longer, log[1..], c, h);
    } else if Chained(pre + log, h) {
      BadLineBreaksChain(pre, log, h);
    }
  }

  /** Exactly which disks are accepted: a chained log and a checkpoint, if any, that names one of its prefixes. */
  lemma VerifyMeaning(d: Disk, h: HashFn)
    ensures Verify(d, h).Ok? <==> Chained(d.log, h) && |d.log| <= U64_MAX && NamesPrefix(d.checkpoint, d.log)
    ensures Verify(d, h).Ok? ==> Verify(d, h).value == Verification(|d.log|, LastHash(d.log))
  {
    VerifyFromMeaning([], d.log, d.checkpoint, h);
    assert [] + d.log == d.log;
  }

  // ----- Appending -----

  /** How far a checkpoint replacement got: the rename is atomic and may be followed by a failing directory sync. */
  datatype CheckpointIo = Replaced | ReplacedThenFailed | NotReplaced

  /** A failing write leaves either nothing or the whole line behind. */
  datatype AppendIo = AppendIo(
    metadataOk: bool, writeOk: bool, lineReached: bool, syncOk: bool, truncateOk: bool, checkpoint: CheckpointIo)

  datatype State = State(disk: Disk, nextSequence: nat, lastHash: string, poisoned: bool, warned: bool)

  function WithCheckpoint(d: Disk, c: Checkpoint, io: CheckpointIo): Disk {
    if io.NotReplaced? then d else d.(checkpoint := Some(c))
  }

  /** The record an append writes. */
  function AppendedRecord(s: State, startup: Startup, timestamp: nat, entry: Entry, h: HashFn): Record {
    NewRecord(s.nextSequence, s.lastHash, startup, timestamp, entry, h)
  }

  predicate Rejects(s: State, io: AppendIo) {
    s.poisoned || s.nextSequence + 1 > U64_MAX || !io.metadataOk
  }

  predicate Commits(s: State, io: AppendIo) {
    !Rejects(s, io) && io.writeOk && io.syncOk
  }

  /** State after `append_event`; it succeeds exactly when `Commits`. */
  function Appended(s: State, startup: Startup, timestamp: nat, entry: Entry, io: AppendIo, h: HashFn): State {
    var r := AppendedRecord(s, startup, timestamp, entry, h);
    var written := s.disk.(log := s.disk.log + [r]);
    if s.poisoned then s
    else if Rejects(s, io) then s.(poisoned := true)
    else if !Commits(s, io) then
      var left := if io.truncateOk || (!io.writeOk && !io.lineReached) then s.disk else written;
      s.(disk := left, poisoned := true)
    else
      State(WithCheckpoint(written, Checkpoint(s.nextSequence + 1, r.hash), io.checkpoint),
            s.nextSequence + 1, r.hash, false, !io.checkpoint.Replaced?)
  }

  /** Every disk a crash during the append can leave. */
  function AppendCrashes(s: State, startup: Startup, timestamp: nat, entry: Entry, io: AppendIo, h: HashFn): seq<Disk> {
    if Rejects(s, io) then [s.disk]
    else
      var r := AppendedRecord(s, startup, timestamp, entry, h);
      var written := s.disk.(log := s.disk.log + [r]);
      if Commits(s, io) then
        [s.disk, written, WithCheckpoint(written, Checkpoint(s.nextSequence + 1, r.hash), io.checkpoint)]
      else [s.disk, written, s.disk]
  }

  // ----- Compaction -----

  datatype RemoveIo = Removed | NothingToRemove | RemoveFailed | RemovedSyncFailed

  datatype CompactIo = CompactIo(replacementOk: bool, remove: RemoveIo, renameOk: bool, parentSyncOk: bool, checkpoint: CheckpointIo)

  predicate RemoveSucceeds(io: CompactIo) {
    io.remove.Removed? || io.remove.NothingToRemove?
  }

  predicate CompactSucceeds(s: State, io: CompactIo) {
    !s.poisoned && io.replacementOk && RemoveSucceeds(io) && io.renameOk
  }

  function AfterRemove(d: Disk, io: CompactIo): Disk {
    if io.remove.Removed? || io.remove.RemovedSyncFailed? then d.(checkpoint := None) else d
  }

  /** The only record of the log after a compaction. */
  function CompactedRecord(startup: Startup, timestamp: nat, entry: Entry, h: HashFn): Record {
    NewRecord(0, GENESIS_HASH, startup, timestamp, entry, h)
  }

  function Compacted(s: State, startup: Startup, timestamp: nat, entry: Entry, io: CompactIo, h: HashFn): State {
    if s.poisoned || !io.replacementOk then s
    else
      var cleared := AfterRemove(s.disk, io);
      if !CompactSucceeds(s, io) then s.(disk := cleared)
      else
        var r := CompactedRecord(startup, timestamp, entry, h);
        State(WithCheckpoint(cleared.(log := [r]), Checkpoint(1, r.hash), io.checkpoint),
              1, r.hash, false, !io.parentSyncOk || !io.checkpoint.Replaced?)
  }

  function CompactCrashes(s: State, startup: Startup, timestamp: nat, entry: Entry, io: CompactIo, h: HashFn): seq<Disk> {
    if s.poisoned || !io.replacementOk then [s.disk]
    else
      var cleared := AfterRemove(s.disk, io);
      if !CompactSucceeds(s, io) then [s.disk, cleared]
      else
        var r := CompactedRecord(startup, timestamp, entry, h);
        var renamed := cleared.(log := [r]);
        [s.disk, cleared, renamed, WithCheckpoint(renamed, Checkpoint(1, r.hash), io.checkpoint)]
  }

  // ----- The mutable journal -----

  class Journal {
    const startup: Startup
    const h: HashFn
    var disk: Disk
    var nextSequence: nat
    var lastHash: string
    var poisoned: bool
    var warned: bool
    /** Every disk a crash so far could have left, in order. */
    ghost var crashes: seq<Disk>

    function View(): State
      reads this
    {
      State(disk, nextSequence, lastHash, poisoned, warned)
    }

    constructor (disk: Disk, verified: Verification, startup: Startup, h: HashFn)
      requires Verify(disk, h) == Ok(verified)
      ensures View() == State(disk, verified.nextSequence, verified.lastHash, false, false)
      ensures Opened(disk, h) == Ok(View())
      ensures this.startup == startup && this.h == h && crashes == [disk]
    {
      this.disk, this.startup, this.h := disk, startup, h;
      nextSequence, lastHash := verified.nextSequence, verified.lastHash;
      poisoned, warned := false, false;
      crashes := [disk];
    }

    method WriteCheckpoint(io: CheckpointIo) returns (ok: bool)
      modifies `disk, `crashes
      ensures disk == WithCheckpoint(old(disk), Checkpoint(nextSequence, lastHash), io)
      ensures crashes == old(crashes) + [disk]
      ensures ok == io.Replaced?
    {
      if !io.NotReplaced? {
        disk := disk.(checkpoint := Some(Checkpoint(nextSequence, lastHash)));
      }
      crashes := crashes + [disk];
      return io.Replaced?;
    }

    method RollbackUncommitted(oldLength: nat, io: AppendIo)
      requires oldLength <= |disk.log|
      modifies `disk, `crashes, `poisoned
      ensures poisoned
      ensures disk == if io.truncateOk then old(disk).(log := old(disk).log[..oldLength]) else old(disk)
      ensures crashes == old(crashes) + [old(disk).(log := old(disk).log[..oldLength])]
    {
      crashes := crashes + [disk.(log := disk.log[..oldLength])];
      if io.truncateOk {
        disk := disk.(log := disk.log[..oldLength]);
      }
      poisoned := true;
    }

    method AppendEvent(entry: Entry, timestamp: nat, io: AppendIo) returns (r: Result<Record>)
      modifies this
      ensures r.Ok? <==> Commits(old(View()), io)
      ensures r.Ok? ==> r.value == AppendedRecord(old(View()), startup, timestamp, entry, h)
      ensures View() == Appended(old(View()), startup, timestamp, entry, io, h)
      ensures crashes == old(crashes) + AppendCrashes(old(View()), startup, timestamp, entry, io, h)
    {
      crashes := crashes + [disk];
      if poisoned {
        return Err("journal_poisoned");
      }
      if nextSequence + 1 > U64_MAX || !io.metadataOk {
        poisoned := true;
        return Err("journal_append_failed_and_poisoned");
      }
      var record := NewRecord(nextSequence, lastHash, startup, timestamp, entry, h);
      var oldLength := |disk.log|;
      crashes := crashes + [disk.(log := disk.log + [record])];
      if io.writeOk || io.lineReached {
        disk := disk.(log := disk.log + [record]);
      }
      assert disk.log[..oldLength] == old(disk).log;
      if !io.writeOk || !io.syncOk {
        RollbackUncommitted(oldLength, io);
        return Err("journal_append_failed_and_poisoned");
      }
      nextSequence := nextSequence + 1;
      lastHash := record.hash;
      var checkpointed := WriteCheckpoint(io.checkpoint);
      warned := !checkpointed;
      return Ok(record);
    }

    method CompactPaperHistory(entry: Entry, timestamp: nat, io: CompactIo) returns (r: Result<()>)
      modifies this
      ensures r.Ok? <==> CompactSucceeds(old(View()), io)
      ensures View() == Compacted(old(View()), startup, timestamp, entry, io, h)
      ensures crashes == old(crashes) + CompactCrashes(old(View()), startup, timestamp, entry, io, h)
    {
      crashes := crashes + [disk];
      if poisoned {
        return Err("journal_poisoned");
      }
      var record := NewRecord(0, GENESIS_HASH, startup, timestamp, entry, h);
      if !io.replacementOk {
        return Err("journal_compaction_failed");
      }
      if io.remove.Removed? || io.remove.RemovedSyncFailed? {
        disk := disk.(checkpoint := None);
      }
      crashes := crashes + [disk];
      if !RemoveSucceeds(io) || !io.renameOk {
        return Err("journal_compaction_failed");
      }
      disk := disk.(log := [record]);
      crashes := crashes + [disk];
      nextSequence := 1;
      lastHash := record.hash;
      warned := !io.parentSyncOk;
      var checkpointed := WriteCheckpoint(io.checkpoint);
      if !checkpointed {
        warned := true;
      }
      return Ok(());
    }

    /** The records, re-verified, without changing anything. */
    method RecordsLocked() returns (records: Result<seq<Record>>)
      ensures records.Ok? <==> Verify(disk, h).Ok?
      ensures records.Ok? ==> records.value == disk.log
    {
      var verified := VerifyReader(disk, h);
      if verified.Err? {
        return Err(verified.error);
      }
      return Ok(disk.log);
    }
  }

  // ----- Crash safety -----

  /** The disk verifies, and an unpoisoned journal remembers exactly what verification would find. */
  ghost predicate Inv(s: State, h: HashFn) {
    && Verify(s.disk, h).Ok?
    && (!s.poisoned ==> Verify(s.disk, h).value == Verification(s.nextSequence, s.lastHash))
  }

  /** The fields `from_line` insists on. */
  predicate Complete(startup: Startup, entry: Entry) {
    startup.processId != "" && startup.configHash != "" && startup.binaryHash != "" && entry.clientOrderId != ""
  }

  ghost predicate AllVerify(disks: seq<Disk>, h: HashFn) {
    forall i | 0 <= i < |disks| :: Verify(disks[i], h).Ok?
  }

  lemma NewRecordValid(sequence: nat, previousHash: string, startup: Startup, timestamp: nat, entry: Entry, h: HashFn)
    ensures LineError(NewRecord(sequence, previousHash, startup, timestamp, entry, h), h).None? <==> Complete(startup, entry)
  {
  }

  /** A complete record appended in step with the log is accepted, with the old checkpoint or with a new one. */
  lemma ExtensionVerifies(s: State, r: Record, io: CheckpointIo, h: HashFn)
    requires Inv(s, h) && !s.poisoned && s.nextSequence + 1 <= U64_MAX
    requires LineError(r, h).None? && r.sequence == s.nextSequence && r.previousHash == s.lastHash
    ensures var written := s.disk.(log := s.disk.log + [r]);
      var checkpointed := WithCheckpoint(written, Checkpoint(s.nextSequence + 1, r.hash), io);
      && Verify(written, h).Ok? && Verify(checkpointed, h) == Ok(Verification(s.nextSequence + 1, r.hash))
  {
    hide Verify, LineError, Chained;
    VerifyMeaning(s.disk, h);
    var written := s.disk.(log := s.disk.log + [r]);
    ChainedAppend(s.disk.log, r, h);
    VerifyMeaning(written, h);
    VerifyMeaning(WithCheckpoint(written, Checkpoint(s.nextSequence + 1, r.hash), io), h);
  }

  /** At every crash point of an append the disk is accepted, and the journal stays in step with it. */
  lemma AppendCrashSafe(s: State, startup: Startup, timestamp: nat, entry: Entry, io: AppendIo, h: HashFn)
    requires Inv(s, h) && Complete(startup, entry)
    ensures AllVerify(AppendCrashes(s, startup, timestamp, entry, io, h), h)
    ensures Inv(Appended(s, startup, timestamp, entry, io, h), h)
  {
    if !Rejects(s, io) {
      NewRecordValid(s.nextSequence, s.lastHash, startup, timestamp, entry, h);
      ExtensionVerifies(s, AppendedRecord(s, startup, timestamp, entry, h), io.checkpoint, h);
    }
  }

  /** An append on a journal in step with its disk: what it stores when it commits, and when it does. */
  lemma AppendMeaning(s: State, startup: Startup, timestamp: nat, entry: Entry, io: AppendIo, h: HashFn)
    requires Inv(s, h)
    ensures var after := Appended(s, startup, timestamp, entry, io, h);
      var log := s.disk.log;
      && (Commits(s, io) <==>
            !s.poisoned && |log| < 0xFFFF_FFFF_FFFF_FFFF && io.metadataOk && io.writeOk && io.syncOk)
      && (Commits(s, io) ==>
            && |after.disk.log| == |log| + 1 && after.disk.log[..|log|] == log
            && var r := after.disk.log[|log|];
            && r.entry == entry && r.startup == startup && r.timestamp == timestamp && r.sequence == |log|
            && r.previousHash == (if log == [] then "GENESIS" else log[|log| - 1].hash)
            && after.nextSequence == |log| + 1 && after.lastHash == r.hash
            && after.disk.checkpoint == if io.checkpoint.NotReplaced? then s.disk.checkpoint else Some(Checkpoint(|log| + 1, r.hash)))
      && (!Commits(s, io) ==> after.poisoned && after.disk.checkpoint == s.disk.checkpoint)
  {
    VerifyMeaning(s.disk, h);
  }

  /** A committed append leaves an acceptable disk exactly when the record has its required fields. */
  lemma CommitVerifiesIffComplete(s: State, startup: Startup, timestamp: nat, entry: Entry, io: AppendIo, h: HashFn)
    requires Inv(s, h) && Commits(s, io)
    ensures Verify(Appended(s, startup, timestamp, entry, io, h).disk, h).Ok? <==> Complete(startup, entry)
  {
    VerifyMeaning(s.disk, h);
    var r := AppendedRecord(s, startup, timestamp, entry, h);
    NewRecordValid(s.nextSequence, s.lastHash, startup, timestamp, entry, h);
    ChainedAppend(s.disk.log, r, h);
    VerifyMeaning(Appended(s, startup, timestamp, entry, io, h).disk, h);
  }

  /** The failing case: on an empty journal, a record without a client order id commits, and nothing can be opened after it. */
  lemma EmptyClientIdBreaksLog(startup: Startup, timestamp: nat, entry: Entry, io: AppendIo, h: HashFn)
    requires entry.clientOrderId == "" && io.metadataOk && io.writeOk && io.syncOk
    ensures var blank := State(Disk([], None), 0, GENESIS_HASH, false, false);
      Commits(blank, io) && Opened(Appended(blank, startup, timestamp, entry, io, h).disk, h).Err?
  {
    EmptyDiskOpens(h);
    CommitVerifiesIffComplete(Opened(Disk([], None), h).value, startup, timestamp, entry, io, h);
  }

  /** A failed append whose rollback truncates leaves the disk as it was; any failure poisons. */
  lemma FailedAppend(s: State, startup: Startup, timestamp: nat, entry: Entry, io: AppendIo, h: HashFn)
    requires !Commits(s, io)
    ensures var after := Appended(s, startup, timestamp, entry, io, h);
      && after.poisoned && after.nextSequence == s.nextSequence && after.lastHash == s.lastHash
      && (io.truncateOk ==> after.disk == s.disk)
      && (after.disk == s.disk || after.disk == s.disk.(log := s.disk.log + [AppendedRecord(s, startup, timestamp, entry, h)]))
  {
  }

  /** A log of one complete first record is accepted without a checkpoint and with the one written for it. */
  lemma CompactedVerifies(d: Disk, r: Record, h: HashFn)
    requires d.log == [r] && (d.checkpoint.Some? ==> d.checkpoint.value == Checkpoint(1, r.hash))
    requires LineError(r, h).None? && r.sequence == 0 && r.previousHash == GENESIS_HASH
    ensures Verify(d, h) == Ok(Verification(1, r.hash))
  {
    ChainedAppend([], r, h);
    assert [] + [r] == d.log;
    VerifyMeaning(d, h);
  }

  lemma ClearedVerifies(d: Disk, h: HashFn)
    requires Verify(d, h).Ok?
    ensures Verify(d.(checkpoint := None), h) == Verify(d, h)
  {
    VerifyMeaning(d, h);
    VerifyMeaning(d.(checkpoint := None), h);
  }

  /**
   * A compaction goes through when every step up to the rename does, and a missing checkpoint is no failure. It leaves the
   * one new record; otherwise log and position stay, and only the checkpoint may be gone.
   */
  lemma CompactMeaning(s: State, startup: Startup, timestamp: nat, entry: Entry, io: CompactIo, h: HashFn)
    ensures CompactSucceeds(s, io) <==>
      !s.poisoned && io.replacementOk && !io.remove.RemoveFailed? && !io.remove.RemovedSyncFailed? && io.renameOk
    ensures var after := Compacted(s, startup, timestamp, entry, io, h);
      && (CompactSucceeds(s, io) ==>
            && |after.disk.log| == 1
            && var r := after.disk.log[0];
            && r.entry == entry && r.startup == startup && r.timestamp == timestamp && r.sequence == 0 && r.previousHash == "GENESIS"
            && after.nextSequence == 1 && after.lastHash == r.hash)
      && (!CompactSucceeds(s, io) ==>
            && after == s.(disk := after.disk) && after.disk.log == s.disk.log
            && (after.disk.checkpoint == s.disk.checkpoint || (after.disk.checkpoint.None? && io.replacementOk)))
  {
  }

  /** At every crash point of a compaction the disk is accepted, and the journal stays in step with it. */
  lemma CompactCrashSafe(s: State, startup: Startup, timestamp: nat, entry: Entry, io: CompactIo, h: HashFn)
    requires Inv(s, h) && Complete(startup, entry)
    requires io.remove.NothingToRemove? ==> s.disk.checkpoint.None?
    ensures AllVerify(CompactCrashes(s, startup, timestamp, entry, io, h), h)
    ensures Inv(Compacted(s, startup, timestamp, entry, io, h), h)
  {
    ClearedVerifies(s.disk, h);
    NewRecordValid(0, GENESIS_HASH, startup, timestamp, entry, h);
    var r := CompactedRecord(startup, timestamp, entry, h);
    var cleared := AfterRemove(s.disk, io);
    if CompactSucceeds(s, io) {
      CompactedVerifies(cleared.(log := [r]), r, h);
      CompactedVerifies(WithCheckpoint(cleared.(log := [r]), Checkpoint(1, r.hash), io.checkpoint), r, h);
    }
  }

  /**
   * Why the checkpoint goes first: with the old checkpoint still in place, the compacted log is
   * accepted only if that checkpoint named no record or happened to name this very one.
   */
  lemma RenameBeforeRemove(s: State, startup: Startup, timestamp: nat, entry: Entry, h: HashFn)
    requires Inv(s, h) && Complete(startup, entry) && s.disk.checkpoint.Some?
    ensures var r := CompactedRecord(startup, timestamp, entry, h);
      var c := s.disk.checkpoint.value;
      Verify(Disk([r], s.disk.checkpoint), h).Ok? <==>
        c.nextSequence == 0 || (c.nextSequence == 1 && c.lastHash == r.hash)
  {
    var r := CompactedRecord(startup, timestamp, entry, h);
    NewRecordValid(0, GENESIS_HASH, startup, timestamp, entry, h);
    ChainedAppend([], r, h);
    assert [] + [r] == [r];
    VerifyMeaning(Disk([r], s.disk.checkpoint), h);
  }

  // ----- Runs with crashes -----

  datatype Op =
    | AppendOp(entry: Entry, timestamp: nat, appendIo: AppendIo)
    | CompactOp(entry: Entry, timestamp: nat, compactIo: CompactIo)

  function Crashes(s: State, startup: Startup, op: Op, h: HashFn): seq<Disk> {
    match op
    case AppendOp(entry, timestamp, io) => AppendCrashes(s, startup, timestamp, entry, io, h)
    case CompactOp(entry, timestamp, io) => CompactCrashes(s, startup, timestamp, entry, io, h)
  }

  function After(s: State, startup: Startup, op: Op, h: HashFn): State {
    match op
    case AppendOp(entry, timestamp, io) => Appended(s, startup, timestamp, entry, io, h)
    case CompactOp(entry, timestamp, io) => Compacted(s, startup, timestamp, entry, io, h)
  }

  /** One operation, run to its end or cut short by a crash after which the journal is opened again. */
  datatype Step = Step(startup: Startup, op: Op, crashAt: Option<nat>)

  predicate StepAllowed(s: State, step: Step, h: HashFn) {
    && Complete(step.startup, step.op.entry)
    && (step.op.CompactOp? && step.op.compactIo.remove.NothingToRemove? ==> s.disk.checkpoint.None?)
    && (step.crashAt.Some? ==> step.crashAt.value < |Crashes(s, step.startup, step.op, h)|)
  }

  /** `Journal::open`: the disk is verified and the position taken from it. */
  function Opened(d: Disk, h: HashFn): Result<State> {
    var v :- Verify(d, h);
    Ok(State(d, v.nextSequence, v.lastHash, false, false))
  }

  function StepState(s: State, step: Step, h: HashFn): Result<State>
    requires StepAllowed(s, step, h)
  {
    if step.crashAt.Some? then Opened(Crashes(s, step.startup, step.op, h)[step.crashAt.value], h)
    else Ok(After(s, step.startup, step.op, h))
  }

  /** Any interleaving of appends, compactions, I/O failures and crashes can be reopened, and keeps the invariant. */
  lemma StepKeepsInv(s: State, step: Step, h: HashFn)
    requires Inv(s, h) && StepAllowed(s, step, h)
    ensures StepState(s, step, h).Ok? && Inv(StepState(s, step, h).value, h)
    ensures AllVerify(Crashes(s, step.startup, step.op, h), h)
  {
    match step.op {
      case AppendOp(entry, timestamp, io) => AppendCrashSafe(s, step.startup, timestamp, entry, io, h);
      case CompactOp(entry, timestamp, io) => CompactCrashSafe(s, step.startup, timestamp, entry, io, h);
    }
  }

  ghost predicate RunAllowed(s: State, steps: seq<Step>, h: HashFn)
    decreases |steps|
  {
    steps == []
    || (StepAllowed(s, steps[0], h)
        && (StepState(s, steps[0], h).Ok? ==> RunAllowed(StepState(s, steps[0], h).value, steps[1..], h)))
  }

  ghost function RunState(s: State, steps: seq<Step>, h: HashFn): Result<State>
    requires RunAllowed(s, steps, h)
    decreases |steps|
  {
    if steps == [] then Ok(s)
    else
      var next :- StepState(s, steps[0], h);
      RunState(next, steps[1..], h)
  }

  /** No run ever leaves a disk that cannot be reopened. */
  lemma {:induction false} RunKeepsInv(s: State, steps: seq<Step>, h: HashFn)
    requires Inv(s, h) && RunAllowed(s, steps, h)
    ensures RunState(s, steps, h).Ok? && Inv(RunState(s, steps, h).value, h)
    decreases |steps|
  {
    if steps != [] {
      StepKeepsInv(s, steps[0], h);
      RunKeepsInv(StepState(s, steps[0], h).value, steps[1..], h);
    }
  }

  /** A fresh, empty disk starts every run. */
  lemma EmptyDiskOpens(h: HashFn)
    ensures Opened(Disk([], None), h).Ok? && Inv(Opened(Disk([], None), h).value, h)
  {
    VerifyMeaning(Disk([], None), h);
  }
}
