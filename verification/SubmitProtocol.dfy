/** The write-ahead protocol of live orders, as steps between which the process may crash, and what a restart sees. */
module SubmitProtocol {
  import opened Prelude
  import Ordered
  import opened Journal
  import opened WriteAhead
  import opened CrashRecovery

  /** How far a client order id has got: journaled, accepted by the venue, or answered for good. */
  datatype Phase = Written | Sent | Answered

  /** `clients` is the in-memory map of open orders; `placed` is every order the venue has ever accepted. */
  datatype Session = Session(
    records: seq<Record>, clients: map<string, string>, phases: map<string, Phase>, placed: map<string, string>)

  datatype Action =
    | WrittenAhead(r: Record)
    | RejectedUnsent(r: Record)
    | VenueAccepts(clientId: string, exchangeId: string)
    | ResultRecorded(r: Record)
    | LifecycleRecorded(r: Record)
    | Unrelated(r: Record)
    | SettledAtStartup(r: Record)
    | Restarted(remote: RemoteState, decode: Decoder)

  predicate Unanswered(s: Session, c: string) {
    c in s.phases && !s.phases[c].Answered?
  }

  /** The venue accepted this id for this client order. */
  predicate PlacedFor(s: Session, exchangeId: string, c: string) {
    exchangeId in s.placed && s.placed[exchangeId] == c
  }

  /** The record settles an attempt listed for a status lookup, under the id it was looked up with. */
  predicate Listed(records: seq<Record>, r: Record) {
    exists u :: u in UnresolvedOrderAttempts(records)
      && u.clientOrderId == r.entry.clientOrderId && Some(u.exchangeOrderId) == r.entry.exchangeOrderId
  }

  predicate Enabled(s: Session, action: Action) {
    match action
    case WrittenAhead(r) =>
      r.entry.kind.WriteAhead? && r.entry.exchangeOrderId.None? && r.entry.clientOrderId !in s.phases
      && forall q | q in s.records :: q.entry.clientOrderId != r.entry.clientOrderId
    case RejectedUnsent(r) =>
      r.entry.kind.Rejected? && r.entry.exchangeOrderId.None?
      && r.entry.clientOrderId in s.phases && s.phases[r.entry.clientOrderId].Written?
    case VenueAccepts(c, x) => c in s.phases && s.phases[c].Written? && x !in s.placed
    case ResultRecorded(r) =>
      && Unanswered(s, r.entry.clientOrderId) && !r.entry.kind.WriteAhead?
      && (r.entry.exchangeOrderId.Some? ==> PlacedFor(s, r.entry.exchangeOrderId.value, r.entry.clientOrderId))
    case LifecycleRecorded(r) =>
      !r.entry.kind.WriteAhead? && r.entry.exchangeOrderId.Some? && r.entry.exchangeOrderId.value in s.clients
      && s.clients[r.entry.exchangeOrderId.value] == r.entry.clientOrderId
    case Unrelated(r) =>
      !r.entry.kind.WriteAhead? && r.entry.exchangeOrderId.None? && r.entry.clientOrderId !in s.phases
    case SettledAtStartup(r) =>
      IsTerminal(r) && Listed(s.records, r)
    case Restarted(remote, decode) =>
      RecoverAfterCrash(s.records, remote).liveUnlockAllowed && OpenOrderMappings(s.records, remote.openOrderIds, decode).Ok?
  }

  function Journaled(s: Session, r: Record): Session {
    s.(records := s.records + [r])
  }

  function WithResult(s: Session, r: Record): Session {
    var c, x := r.entry.clientOrderId, r.entry.exchangeOrderId;
    var answered := if x.Some? || IsTerminal(r) then s.(phases := s.phases[c := Answered]) else s;
    Journaled(if x.Some? then answered.(clients := s.clients[x.value := c]) else answered, r)
  }

  function Apply(s: Session, action: Action): Session {
    match action
    case WrittenAhead(r) => Journaled(s.(phases := s.phases[r.entry.clientOrderId := Written]), r)
    case RejectedUnsent(r) => Journaled(s.(phases := s.phases[r.entry.clientOrderId := Answered]), r)
    case VenueAccepts(c, x) => s.(placed := s.placed[x := c], phases := s.phases[c := Sent])
    case ResultRecorded(r) => WithResult(s, r)
    case LifecycleRecorded(r) => Journaled(s, r)
    case Unrelated(r) => Journaled(s, r)
    case SettledAtStartup(r) => Journaled(s, r)
    case Restarted(remote, decode) =>
      var m := OpenOrderMappings(s.records, remote.openOrderIds, decode);
      if m.Err? then s else s.(clients := map x | x in m.value :: m.value[x].clientOrderId)
  }

  ghost predicate Steps(s: Session, actions: seq<Action>)
    decreases |actions|
  {
    actions == [] || (Enabled(s, actions[0]) && Steps(Apply(s, actions[0]), actions[1..]))
  }

  function Run(s: Session, actions: seq<Action>): Session
    decreases |actions|
  {
    if actions == [] then s else Run(Apply(s, actions[0]), actions[1..])
  }

  const FRESH := Session([], map[], map[], map[])

  // ----- The invariant -----

  /** Every id in the journal is one the venue gave to that client order. */
  ghost predicate IdsTrue(s: Session) {
    forall r | r in s.records && r.entry.exchangeOrderId.Some? :: PlacedFor(s, r.entry.exchangeOrderId.value, r.entry.clientOrderId)
  }

  /** A client order that is not answered has neither an id nor a terminal record in the journal. */
  ghost predicate UnansweredIsBare(s: Session) {
    forall r | r in s.records && Unanswered(s, r.entry.clientOrderId) :: r.entry.exchangeOrderId.None? && !IsTerminal(r)
  }

  ghost predicate HasWriteAhead(s: Session, c: string) {
    exists r :: r in s.records && r.entry.kind.WriteAhead? && r.entry.clientOrderId == c
  }

  ghost predicate JournalOk(s: Session) {
    IdsTrue(s) && UnansweredIsBare(s) && forall c | c in s.phases :: HasWriteAhead(s, c)
  }

  /** The venue holds only orders that were written ahead, one id each; tracked orders are answered ones among them. */
  ghost predicate VenueOk(s: Session) {
    && (forall x | x in s.placed :: s.placed[x] in s.phases && !s.phases[s.placed[x]].Written?)
    && (forall x, y | x in s.placed && y in s.placed && s.placed[x] == s.placed[y] :: x == y)
    && (forall x | x in s.clients :: PlacedFor(s, x, s.clients[x]) && !Unanswered(s, s.clients[x]))
  }

  ghost predicate Inv(s: Session) {
    JournalOk(s) && VenueOk(s)
  }

  lemma JournaledKeeps(s: Session, r: Record)
    requires JournalOk(s)
    requires r.entry.exchangeOrderId.Some? ==> PlacedFor(s, r.entry.exchangeOrderId.value, r.entry.clientOrderId)
    requires Unanswered(s, r.entry.clientOrderId) ==> r.entry.exchangeOrderId.None? && !IsTerminal(r)
    ensures JournalOk(Journaled(s, r))
  {
    var after := Journaled(s, r);
    forall c | c in after.phases ensures HasWriteAhead(after, c) {
      var w :| w in s.records && w.entry.kind.WriteAhead? && w.entry.clientOrderId == c;
      assert w in after.records;
    }
  }

  /** Moving on a client order that is in no journaled result, or answering it, keeps the journal's invariant. */
  lemma PhaseKeepsJournal(s: Session, c: string, phase: Phase)
    requires JournalOk(s) && c in s.phases && (Unanswered(s, c) || phase.Answered?)
    ensures JournalOk(s.(phases := s.phases[c := phase]))
  {
    var after := s.(phases := s.phases[c := phase]);
    forall d | d in after.phases ensures HasWriteAhead(after, d) {
      assert HasWriteAhead(s, d);
    }
  }

  lemma PlacedKeepsJournal(s: Session, c: string, x: string)
    requires JournalOk(s) && x !in s.placed
    ensures JournalOk(s.(placed := s.placed[x := c]))
  {
    var after := s.(placed := s.placed[x := c]);
    forall d | d in after.phases ensures HasWriteAhead(after, d) {
      assert HasWriteAhead(s, d);
    }
  }

  lemma WrittenAheadKeeps(s: Session, r: Record)
    requires JournalOk(s) && Enabled(s, WrittenAhead(r))
    ensures JournalOk(Apply(s, WrittenAhead(r)))
  {
    var after := Apply(s, WrittenAhead(r));
    assert r in after.records;
    forall c | c in after.phases ensures HasWriteAhead(after, c) {
      if c in s.phases {
        var w :| w in s.records && w.entry.kind.WriteAhead? && w.entry.clientOrderId == c;
        assert w in after.records;
      }
    }
  }

  lemma WrittenAheadKeepsVenue(s: Session, r: Record)
    requires VenueOk(s) && Enabled(s, WrittenAhead(r))
    ensures VenueOk(Apply(s, WrittenAhead(r)))
  {
  }

  lemma RejectedUnsentKeeps(s: Session, r: Record)
    requires Inv(s) && Enabled(s, RejectedUnsent(r))
    ensures Inv(Apply(s, RejectedUnsent(r)))
  {
    PhaseKeepsJournal(s, r.entry.clientOrderId, Answered);
    JournaledKeeps(s.(phases := s.phases[r.entry.clientOrderId := Answered]), r);
  }

  lemma VenueAcceptsKeeps(s: Session, c: string, x: string)
    requires Inv(s) && Enabled(s, VenueAccepts(c, x))
    ensures Inv(Apply(s, VenueAccepts(c, x)))
  {
    hide JournalOk;
    PhaseKeepsJournal(s, c, Sent);
    PlacedKeepsJournal(s.(phases := s.phases[c := Sent]), c, x);
  }

  lemma ResultKeepsJournal(s: Session, r: Record)
    requires JournalOk(s) && Enabled(s, ResultRecorded(r)) && r.entry.clientOrderId in s.phases
    ensures JournalOk(Apply(s, ResultRecorded(r)))
  {
    var c, x := r.entry.clientOrderId, r.entry.exchangeOrderId;
    if x.Some? || IsTerminal(r) {
      PhaseKeepsJournal(s, c, Answered);
      var answered := s.(phases := s.phases[c := Answered]);
      JournaledKeeps(answered, r);
      ClientsIrrelevant(Journaled(answered, r), if x.Some? then s.clients[x.value := c] else s.clients);
    } else {
      JournaledKeeps(s, r);
    }
  }

  lemma ResultKeepsVenue(s: Session, r: Record)
    requires VenueOk(s) && Enabled(s, ResultRecorded(r))
    ensures VenueOk(Apply(s, ResultRecorded(r)))
  {
  }

  lemma ClientsIrrelevant(s: Session, clients: map<string, string>)
    requires JournalOk(s)
    ensures JournalOk(s.(clients := clients))
  {
    forall c | c in s.phases ensures HasWriteAhead(s.(clients := clients), c) {
      assert HasWriteAhead(s, c);
    }
  }

  /** An id named by an attempt is one the venue gave to it. */
  lemma AttemptIdsTrue(s: Session, c: string, x: string)
    requires IdsTrue(s) && NamedBy(AttemptOf(s.records, c), x)
    ensures PlacedFor(s, x, c)
  {
    var r :| r in AttemptOf(s.records, c) && r.entry.exchangeOrderId == Some(x);
    AttemptMember(s.records, c, r);
  }

  lemma NamedIsAnswered(s: Session, c: string, x: string)
    requires Inv(s) && NamedBy(AttemptOf(s.records, c), x)
    ensures PlacedFor(s, x, c) && !Unanswered(s, c)
  {
    AttemptIdsTrue(s, c, x);
    var r :| r in AttemptOf(s.records, c) && r.entry.exchangeOrderId == Some(x);
    AttemptMember(s.records, c, r);
  }

  lemma RestartKeeps(s: Session, remote: RemoteState, decode: Decoder)
    requires Inv(s) && Enabled(s, Restarted(remote, decode))
    ensures Inv(Apply(s, Restarted(remote, decode)))
  {
    hide IsTerminal, OpenOrderMappings, Owns, NamedBy, CrashRecovery.Pending, RecoverAfterCrash, JournalOk;
    var m := OpenOrderMappings(s.records, remote.openOrderIds, decode).value;
    var after := Apply(s, Restarted(remote, decode));
    forall x | x in after.clients ensures PlacedFor(s, x, after.clients[x]) && !Unanswered(s, after.clients[x]) {
      RecoveredFromWriteAhead(s.records, remote.openOrderIds, decode, x);
      OwnsNamed(s.records, m[x].clientOrderId, x, remote.openOrderIds);
      NamedIsAnswered(s, m[x].clientOrderId, x);
    }
    ClientsIrrelevant(s, after.clients);
  }

  lemma {:induction false} ListedFrom(ids: seq<string>, attempts: Attempts, u: UnresolvedAttempt)
    requires forall j | j in ids :: j in attempts && attempts[j] != []
    requires u in UnresolvedFrom(ids, attempts)
    ensures u.clientOrderId in attempts && u.exchangeOrderId in ExchangeIds(attempts[u.clientOrderId])
  {
    var rest := UnresolvedFrom(ids[1..], attempts);
    if u in rest {
      ListedFrom(ids[1..], attempts, u);
    }
  }

  lemma SettledKeeps(s: Session, r: Record)
    requires Inv(s) && Enabled(s, SettledAtStartup(r))
    ensures Inv(Apply(s, SettledAtStartup(r)))
  {
    hide Group;
    var u :| u in UnresolvedOrderAttempts(s.records)
      && u.clientOrderId == r.entry.clientOrderId && Some(u.exchangeOrderId) == r.entry.exchangeOrderId;
    AttemptsNonEmpty(s.records);
    ListedFrom(Ordered.SortedKeys(Group(s.records).Keys), Group(s.records), u);
    GroupMeaning(s.records, u.clientOrderId);
    NamedIds(AttemptOf(s.records, u.clientOrderId), u.exchangeOrderId);
    NamedIsAnswered(s, u.clientOrderId, u.exchangeOrderId);
    JournaledKeeps(s, r);
  }

  lemma StepKeepsInv(s: Session, action: Action)
    requires Inv(s) && Enabled(s, action)
    ensures Inv(Apply(s, action))
  {
    match action {
      case WrittenAhead(r) =>
        WrittenAheadKeeps(s, r);
        WrittenAheadKeepsVenue(s, r);
      case RejectedUnsent(r) => RejectedUnsentKeeps(s, r);
      case VenueAccepts(c, x) => VenueAcceptsKeeps(s, c, x);
      case ResultRecorded(r) =>
        ResultKeepsJournal(s, r);
        ResultKeepsVenue(s, r);
      case LifecycleRecorded(r) => JournaledKeeps(s, r);
      case Unrelated(r) => JournaledKeeps(s, r);
      case SettledAtStartup(r) => SettledKeeps(s, r);
      case Restarted(remote, decode) => RestartKeeps(s, remote, decode);
    }
  }

  lemma {:induction false} RunKeepsInv(s: Session, actions: seq<Action>)
    requires Inv(s) && Steps(s, actions)
    ensures Inv(Run(s, actions))
    decreases |actions|
  {
    if actions != [] {
      StepKeepsInv(s, actions[0]);
      RunKeepsInv(Apply(s, actions[0]), actions[1..]);
    }
  }

  // ----- What a restart sees, after any run and at any crash point -----

  /** A client order without a recorded answer, lost or never sent, keeps the session locked whatever the venue reports. */
  lemma UnansweredBlocks(actions: seq<Action>, c: string, remote: RemoteState)
    requires Steps(FRESH, actions) && Unanswered(Run(FRESH, actions), c)
    ensures !RecoverAfterCrash(Run(FRESH, actions).records, remote).liveUnlockAllowed
  {
    var s := Run(FRESH, actions);
    RunKeepsInv(FRESH, actions);
    var attempt := AttemptOf(s.records, c);
    AttemptStarts(s.records, c);
    assert HasWriteAhead(s, c);
    forall r | r in attempt ensures r.entry.exchangeOrderId.None? && !IsTerminal(r) {
      AttemptMember(s.records, c, r);
    }
    assert CrashRecovery.Pending(s.records, c) && !KnownToVenue(attempt, remote);
    UnlockMeaning(s.records, remote);
  }

  lemma OneIdEach(s: Session, open: set<string>)
    requires Inv(s)
    ensures AtMostOneOpen(s.records, open)
  {
    forall c, x, y | NamesOpen(s.records, c, x, open) && NamesOpen(s.records, c, y, open) ensures x == y {
      AttemptIdsTrue(s, c, x);
      AttemptIdsTrue(s, c, y);
    }
  }

  /**
   * When a restart unlocks, the tracked orders are exactly the venue's open orders, each under the client order id the
   * venue accepted it for.
   */
  lemma UnlockedRestartCovers(actions: seq<Action>, remote: RemoteState, decode: Decoder)
    requires Steps(FRESH, actions) && Enabled(Run(FRESH, actions), Restarted(remote, decode))
    ensures var s := Run(FRESH, actions);
      var clients := Apply(s, Restarted(remote, decode)).clients;
      clients.Keys == remote.openOrderIds && forall x | x in clients :: PlacedFor(s, x, clients[x])
  {
    hide Run, Steps, RecoverAfterCrash, OpenOrderMappings;
    var s := Run(FRESH, actions);
    RunKeepsInv(FRESH, actions);
    OneIdEach(s, remote.openOrderIds);
    UnlockedMappingsCover(s.records, remote, decode);
    RestartKeeps(s, remote, decode);
  }

  /** The records of an order that goes its whole way: written ahead, acknowledged under an id, and closed under it. */
  ghost predicate Life(w: Record, a: Record, d: Record, x: string) {
    && w.entry.kind == Kind.WriteAhead && w.entry.exchangeOrderId == None
    && a.entry.kind == Kind.Acknowledged && a.entry.exchangeOrderId == Some(x)
    && (d.entry.kind == Kind.Filled || d.entry.kind == Kind.Cancelled) && d.entry.exchangeOrderId == Some(x)
    && w.entry.clientOrderId == a.entry.clientOrderId == d.entry.clientOrderId
  }

  function Placing(w: Record, a: Record, x: string): seq<Action> {
    [WrittenAhead(w), VenueAccepts(w.entry.clientOrderId, x), ResultRecorded(a)]
  }

  lemma OneMore(s: Session, action: Action, rest: seq<Action>)
    requires Enabled(s, action)
    ensures Steps(s, [action] + rest) <==> Steps(Apply(s, action), rest)
    ensures Run(s, [action] + rest) == Run(Apply(s, action), rest)
  {
    assert ([action] + rest)[1..] == rest;
  }

  /** The session once the order is acknowledged. */
  ghost function Placed(s: Session, w: Record, a: Record, x: string): Session {
    var c := w.entry.clientOrderId;
    Session(s.records + [w, a], s.clients[x := c], s.phases[c := Answered], s.placed[x := c])
  }

  ghost predicate Fresh(s: Session, c: string, x: string) {
    x !in s.placed && c !in s.phases && forall q | q in s.records :: q.entry.clientOrderId != c
  }

  lemma PlacingRuns(s: Session, w: Record, a: Record, d: Record, x: string, rest: seq<Action>)
    requires Life(w, a, d, x) && Fresh(s, w.entry.clientOrderId, x)
    ensures Steps(s, Placing(w, a, x) + rest) <==> Steps(Placed(s, w, a, x), rest)
    ensures Run(s, Placing(w, a, x) + rest) == Run(Placed(s, w, a, x), rest)
  {
    hide Steps, Run;
    var c := w.entry.clientOrderId;
    var written, placed, acked := WrittenAhead(w), VenueAccepts(c, x), ResultRecorded(a);
    var s1 := Apply(s, written);
    var s2 := Apply(s1, placed);
    assert Placing(w, a, x) + rest == [written] + ([placed] + ([acked] + rest));
    OneMore(s, written, [placed] + ([acked] + rest));
    OneMore(s1, placed, [acked] + rest);
    OneMore(s2, acked, rest);
    assert s.phases[c := Written][c := Sent][c := Answered] == s.phases[c := Answered];
    assert Apply(s2, acked) == Placed(s, w, a, x);
  }

  /** In any state a new order can be written ahead, placed, acknowledged and closed; it is tracked from then on. */
  lemma LifeRuns(s: Session, w: Record, a: Record, d: Record, x: string)
    requires Life(w, a, d, x) && Fresh(s, w.entry.clientOrderId, x)
    ensures Steps(s, Placing(w, a, x)) && Run(s, Placing(w, a, x)) == Placed(s, w, a, x)
    ensures var closing := Placing(w, a, x) + [LifecycleRecorded(d)];
      Steps(s, closing) && Run(s, closing) == Placed(s, w, a, x).(records := s.records + [w, a, d])
  {
    var closed, t := LifecycleRecorded(d), Placed(s, w, a, x);
    PlacingRuns(s, w, a, d, x, []);
    PlacingRuns(s, w, a, d, x, [closed]);
    assert Placing(w, a, x) + [] == Placing(w, a, x) && [closed] + [] == [closed];
    OneMore(t, closed, []);
    assert t.records + [d] == s.records + [w, a, d];
  }

  lemma LifeAttempts(s: Session, w: Record, a: Record, d: Record, x: string, id: string)
    requires Life(w, a, d, x) && Fresh(s, w.entry.clientOrderId, x)
    ensures var c := w.entry.clientOrderId;
      && AttemptOf(s.records + [w, a], id) == (if id == c then [w, a] else AttemptOf(s.records, id))
      && AttemptOf(s.records + [w, a, d], id) == if id == c then [w, a, d] else AttemptOf(s.records, id)
  {
    hide AttemptOf;
    var c := w.entry.clientOrderId;
    AttemptStarts(s.records, c);
    assert s.records + [w, a] == (s.records + [w]) + [a] && s.records + [w, a, d] == (s.records + [w, a]) + [d];
    AttemptGrows(s.records, w, id);
    AttemptGrows(s.records + [w], a, id);
    AttemptGrows(s.records + [w, a], d, id);
    if id == c {
      assert AttemptOf(s.records, c) == [];
    }
  }

  lemma LifePending(s: Session, w: Record, a: Record, d: Record, x: string, id: string)
    requires Inv(s) && Life(w, a, d, x) && Fresh(s, w.entry.clientOrderId, x)
    ensures var open, closed, c := s.records + [w, a], s.records + [w, a, d], w.entry.clientOrderId;
      && !CrashRecovery.Pending(s.records, c) && !CrashRecovery.Pending(closed, c) && CrashRecovery.Pending(open, c)
      && (id != c ==> AttemptOf(open, id) == AttemptOf(closed, id) == AttemptOf(s.records, id))
      && NamedBy(AttemptOf(open, c), x) && !NamedBy(AttemptOf(s.records, id), x)
      && (NamedBy(AttemptOf(open, c), id) ==> id == x)
  {
    hide AttemptOf;
    var c := w.entry.clientOrderId;
    LifeAttempts(s, w, a, d, x, id);
    LifeAttempts(s, w, a, d, x, c);
    AttemptStarts(s.records, c);
    assert AttemptOf(s.records, c) == [] && a in [w, a] && d in [w, a, d];
    if NamedBy(AttemptOf(s.records, id), x) {
      AttemptIdsTrue(s, id, x);
      assert false;
    }
  }

  /** An order that is open at the venue under the id it was acknowledged with does not change whether a restart unlocks. */
  lemma OpenKeepsUnlock(s: Session, w: Record, a: Record, d: Record, x: string, remote: RemoteState)
    requires Inv(s) && Life(w, a, d, x) && Fresh(s, w.entry.clientOrderId, x) && x !in remote.openOrderIds
    ensures RecoverAfterCrash(s.records + [w, a], remote.(openOrderIds := remote.openOrderIds + {x})).liveUnlockAllowed
      <==> RecoverAfterCrash(s.records, remote).liveUnlockAllowed
  {
    hide AttemptOf, RecoverAfterCrash, NamedBy, Inv, Life, Fresh;
    var c, open, with := w.entry.clientOrderId, s.records + [w, a], remote.(openOrderIds := remote.openOrderIds + {x});
    UnlockMeaning(s.records, remote);
    UnlockMeaning(open, with);
    forall id
      ensures CrashRecovery.Pending(open, id) <==> id == c || CrashRecovery.Pending(s.records, id)
      ensures id != c ==> AttemptOf(open, id) == AttemptOf(s.records, id)
      ensures !CrashRecovery.Pending(s.records, c) && NamedBy(AttemptOf(open, c), x) && !NamedBy(AttemptOf(s.records, id), x)
      ensures NamedBy(AttemptOf(open, c), id) ==> id == x
    {
      LifePending(s, w, a, d, x, id);
    }
  }

  /** And one that was closed leaves nothing behind. */
  lemma ClosedKeepsUnlock(s: Session, w: Record, a: Record, d: Record, x: string, remote: RemoteState)
    requires Inv(s) && Life(w, a, d, x) && Fresh(s, w.entry.clientOrderId, x)
    ensures RecoverAfterCrash(s.records + [w, a, d], remote).liveUnlockAllowed
      <==> RecoverAfterCrash(s.records, remote).liveUnlockAllowed
  {
    hide AttemptOf, RecoverAfterCrash, NamedBy, KnownToVenue, Inv, Life, Fresh;
    var c, closed := w.entry.clientOrderId, s.records + [w, a, d];
    UnlockMeaning(s.records, remote);
    UnlockMeaning(closed, remote);
    forall id
      ensures CrashRecovery.Pending(closed, id) <==> CrashRecovery.Pending(s.records, id)
      ensures id != c ==> AttemptOf(closed, id) == AttemptOf(s.records, id)
      ensures !CrashRecovery.Pending(s.records, c)
    {
      LifePending(s, w, a, d, x, id);
    }
  }

  /** No order reaches the venue without a journaled write-ahead record that survives the crash. */
  lemma VenueOrdersWrittenAhead(actions: seq<Action>, x: string)
    requires Steps(FRESH, actions) && x in Run(FRESH, actions).placed
    ensures var s := Run(FRESH, actions);
      AttemptOf(s.records, s.placed[x]) != []
  {
    var s := Run(FRESH, actions);
    RunKeepsInv(FRESH, actions);
    AttemptStarts(s.records, s.placed[x]);
    assert HasWriteAhead(s, s.placed[x]);
  }
}
