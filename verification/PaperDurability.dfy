/** Runs of a durable paper session: commits, failed appends, compactions, crashes at any point, and restarts. */
module PaperDurability {
  import opened Prelude
  import opened PaperCore
  import opened PaperCommit
  import I = PaperInvariant
  import P = PaperPlans
  import R = PaperRuns
  import J = Journal

  /**
   * One commit of an engine staged from the current one, run to its end or cut short by a crash; or a restart.
   * After a crash and at a restart the journal is opened again and the engine recovered from it.
   */
  datatype Step =
    | Committing(actions: seq<R.Action>, x: Staged, io: CommitIo, crashAt: Option<nat>)
    | Restarting

  function Reopen(d: J.Disk, w: World): Result<Paper> {
    var s :- J.Opened(d, w.h);
    var e :- EngineOn(d, w);
    Ok(Paper(e, s))
  }

  ghost predicate Allowed(p: Paper, step: Step, w: World) {
    step.Committing? ==>
      && R.RunAllowed(p.engine, step.actions) && step.x.engine == R.Run(p.engine, step.actions).0
      && Committable(step.x, w) && IoConsistent(p, step.x, step.io, w)
      && (step.crashAt.Some? ==> step.crashAt.value < |CommitCrashes(p, step.x, step.io, w)|)
  }

  function Next(p: Paper, step: Step, w: World): Result<Paper>
    requires step.Committing? && step.crashAt.Some? ==> step.crashAt.value < |CommitCrashes(p, step.x, step.io, w)|
  {
    if step.Restarting? then Reopen(p.journal.disk, w)
    else if step.crashAt.Some? then Reopen(CommitCrashes(p, step.x, step.io, w)[step.crashAt.value], w)
    else Ok(Commit(p, step.x, step.io, w).0)
  }

  // ----- The invariant -----

  /** An engine the matching rules can have produced. */
  ghost predicate Sane(e: Engine) {
    exists k: nat :: I.Inv(e, k)
  }

  ghost predicate Recoverable(d: J.Disk, e: Engine, w: World) {
    Stores(d, e, w) && Sane(e)
  }

  /** The disk opens and holds a sane engine; while the journal is not poisoned it is the one in memory. */
  ghost predicate Sound(p: Paper, w: World) {
    && J.Inv(p.journal, w.h) && Sane(p.engine)
    && if p.journal.poisoned then exists e :: Recoverable(p.journal.disk, e, w) else Stores(p.journal.disk, p.engine, w)
  }

  lemma StagedIsSane(e: Engine, actions: seq<R.Action>)
    requires Sane(e) && R.RunAllowed(e, actions)
    ensures Sane(Pruned(R.Run(e, actions).0))
  {
    var k: nat :| I.Inv(e, k);
    R.RunKeepsInv(e, actions, k);
    var (staged, fills) := R.Run(e, actions);
    R.StepKeepsInv(staged, R.Pruning, k + P.PartialBuys(fills));
    assert I.Inv(Pruned(staged), k + P.PartialBuys(fills) + P.PartialBuys([]));
  }

  lemma ReopenSound(d: J.Disk, e: Engine, w: World)
    requires Recoverable(d, e, w)
    ensures Reopen(d, w).Ok? && Reopen(d, w).value.engine == e && !Reopen(d, w).value.journal.poisoned
    ensures Sound(Reopen(d, w).value, w)
  {
  }

  /** A restart brings back a sane engine, and the one in memory while the journal is not poisoned. */
  lemma RestartSound(p: Paper, w: World)
    requires Sound(p, w)
    ensures var r := Reopen(p.journal.disk, w);
      r.Ok? && Sound(r.value, w) && !r.value.journal.poisoned && (!p.journal.poisoned ==> r.value.engine == p.engine)
  {
    if p.journal.poisoned {
      var e :| Recoverable(p.journal.disk, e, w);
      ReopenSound(p.journal.disk, e, w);
    } else {
      ReopenSound(p.journal.disk, p.engine, w);
    }
  }

  /** A poisoned journal refuses every commit and changes nothing. */
  lemma PoisonedCommit(p: Paper, x: Staged, io: CommitIo, w: World)
    requires p.journal.poisoned
    ensures Commit(p, x, io, w).0 == p && Commit(p, x, io, w).1.Err?
    ensures forall d | d in CommitCrashes(p, x, io, w) :: d == p.journal.disk
  {
  }

  lemma CommitKeepsSound(p: Paper, x: Staged, io: CommitIo, w: World)
    requires Lossless(w.codec) && Committable(x, w) && IoConsistent(p, x, io, w)
    requires Sound(p, w) && Sane(Pruned(x.engine))
    ensures Sound(Commit(p, x, io, w).0, w)
  {
    if p.journal.poisoned {
      PoisonedCommit(p, x, io, w);
    } else {
      CommitOutcome(p, x, io, w);
      var after := Commit(p, x, io, w).0;
      if Stores(after.journal.disk, p.engine, w) {
        assert Recoverable(after.journal.disk, p.engine, w);
      } else {
        assert Recoverable(after.journal.disk, Pruned(x.engine), w);
      }
    }
  }

  /** Whatever the crash point, the engine that comes back is the one before the interrupted commit or the one after. */
  lemma CrashRecovers(p: Paper, x: Staged, io: CommitIo, w: World, i: nat)
    requires Lossless(w.codec) && Committable(x, w) && IoConsistent(p, x, io, w)
    requires Sound(p, w) && !p.journal.poisoned && Sane(Pruned(x.engine)) && i < |CommitCrashes(p, x, io, w)|
    ensures var r := Reopen(CommitCrashes(p, x, io, w)[i], w);
      r.Ok? && Sound(r.value, w) && (r.value.engine == p.engine || r.value.engine == Pruned(x.engine))
  {
    CommitCrashSafe(p, x, io, w, i);
    var d := CommitCrashes(p, x, io, w)[i];
    if Stores(d, p.engine, w) {
      ReopenSound(d, p.engine, w);
    } else {
      ReopenSound(d, Pruned(x.engine), w);
    }
  }

  lemma StepKeepsSound(p: Paper, step: Step, w: World)
    requires Lossless(w.codec) && Sound(p, w) && Allowed(p, step, w)
    ensures Next(p, step, w).Ok? && Sound(Next(p, step, w).value, w)
  {
    if step.Committing? {
      StagedIsSane(p.engine, step.actions);
    }
    if step.Restarting? || (p.journal.poisoned && step.crashAt.Some?) {
      if step.Committing? {
        PoisonedCommit(p, step.x, step.io, w);
      }
      RestartSound(p, w);
    } else if step.crashAt.Some? {
      CrashRecovers(p, step.x, step.io, w, step.crashAt.value);
    } else {
      CommitKeepsSound(p, step.x, step.io, w);
    }
  }

  ghost predicate RunAllowed(p: Paper, steps: seq<Step>, w: World)
    decreases |steps|
  {
    steps == []
    || (Allowed(p, steps[0], w) && (Next(p, steps[0], w).Ok? ==> RunAllowed(Next(p, steps[0], w).value, steps[1..], w)))
  }

  ghost function Run(p: Paper, steps: seq<Step>, w: World): Result<Paper>
    requires RunAllowed(p, steps, w)
    decreases |steps|
  {
    if steps == [] then Ok(p)
    else
      var next :- Next(p, steps[0], w);
      Run(next, steps[1..], w)
  }

  lemma {:induction false} RunKeepsSound(p: Paper, steps: seq<Step>, w: World)
    requires Lossless(w.codec) && Sound(p, w) && RunAllowed(p, steps, w)
    ensures Run(p, steps, w).Ok? && Sound(Run(p, steps, w).value, w)
    decreases |steps|
  {
    if steps != [] {
      StepKeepsSound(p, steps[0], w);
      RunKeepsSound(Next(p, steps[0], w).value, steps[1..], w);
    }
  }

  /** An empty journal holds the new engine of the configuration, so every session starts sound. */
  lemma FreshSession(w: World)
    requires NewEngine(w.settings.startingCash, w.settings.feeBps, w.settings.participationBps).Ok?
    ensures Reopen(J.Disk([], None), w).Ok? && Sound(Reopen(J.Disk([], None), w).value, w)
  {
    J.EmptyDiskOpens(w.h);
    var e := NewEngine(w.settings.startingCash, w.settings.feeBps, w.settings.participationBps).value;
    assert I.Inv(e, 0);
    assert Recoverable(J.Disk([], None), e, w);
    ReopenSound(J.Disk([], None), e, w);
  }

  /**
   * From an empty journal, after any run of commits, failures, compactions, crashes and restarts: recovery succeeds, and
   * while the journal is not poisoned it gives exactly the engine in memory.
   */
  lemma SessionRecovers(w: World, steps: seq<Step>)
    requires Lossless(w.codec)
    requires NewEngine(w.settings.startingCash, w.settings.feeBps, w.settings.participationBps).Ok?
    requires Reopen(J.Disk([], None), w).Ok? && RunAllowed(Reopen(J.Disk([], None), w).value, steps, w)
    ensures var r := Run(Reopen(J.Disk([], None), w).value, steps, w);
      && r.Ok? && Reopen(r.value.journal.disk, w).Ok? && Sane(Reopen(r.value.journal.disk, w).value.engine)
      && (!r.value.journal.poisoned ==> Reopen(r.value.journal.disk, w).value.engine == r.value.engine)
  {
    FreshSession(w);
    RunKeepsSound(Reopen(J.Disk([], None), w).value, steps, w);
    RestartSound(Run(Reopen(J.Disk([], None), w).value, steps, w).value, w);
  }
}
