/** One market batch: every event is applied to every book; the batch answers with the assets left broken. */
module MarketBatch {
  import opened Prelude
  import opened Ordered
  import opened MarketEvents

  function EventAssets(e: MarketEvent): set<string> {
    match e
    case BookSnapshot(asset, _, _, _, _) => {asset}
    case TickSizeChange(asset, _, _, _) => {asset}
    case LastTradePrice(asset, _, _, _, _) => {asset}
    case BestBidAsk(asset, _, _, _) => {asset}
    case PriceChanges(_, changes) => set c | c in changes :: c.assetId
    case MarketResolved(assets) => set a | a in assets
    case NewMarket(_) => {}
  }

  function ResolvedAssets(e: MarketEvent): set<string> {
    if e.MarketResolved? then set a | a in e.assetIds else {}
  }

  // ----- What one event does to one book -----

  /** The book after the event, whether the event broke it, and whether the event repaired it. */
  datatype Effect = Effect(after: BookState, invalid: bool, repaired: bool)

  function EffectOf(b: BookState, e: MarketEvent, now: nat): Effect {
    var (applied, r) := ApplyEvent(b, e, now);
    var affected := b.assetId in EventAssets(e);
    var after := if r.Err? && affected then applied.(tradeable := false) else applied;
    Effect(after,
           affected && (r.Err? || (e.TickSizeChange? && !after.tradeable)),
           affected && e.BookSnapshot? && after.tradeable && after.hash.Some?)
  }

  /** An event seen from the batch: its effect on each book, and the assets it resolves. */
  datatype Impact = Impact(on: BookState -> Effect, resolved: set<string>)

  function ImpactOf(e: MarketEvent, now: nat): Impact {
    Impact((b: BookState) => EffectOf(b, e, now), ResolvedAssets(e))
  }

  function Impacts(events: seq<MarketEvent>, now: nat): seq<Impact> {
    seq(|events|, i requires 0 <= i < |events| => ImpactOf(events[i], now))
  }

  // ----- The batch -----

  datatype Desk = Desk(books: map<string, BookState>, repairing: set<string>, batchInvalid: set<string>)

  function Broken(books: map<string, BookState>, p: Impact): set<string> {
    set a | a in books && p.on(books[a]).invalid
  }

  function Repaired(books: map<string, BookState>, p: Impact): set<string> {
    set a | a in books && p.on(books[a]).repaired
  }

  function BooksAfter(books: map<string, BookState>, p: Impact): map<string, BookState> {
    map a | a in books :: p.on(books[a]).after
  }

  function EventStep(d: Desk, p: Impact): Desk {
    var cleared := Repaired(d.books, p) + p.resolved;
    Desk(BooksAfter(d.books, p),
         (d.repairing - cleared) + Broken(d.books, p),
         (d.batchInvalid - cleared) + Broken(d.books, p))
  }

  function BatchRun(d: Desk, impacts: seq<Impact>): Desk {
    if impacts == [] then d
    else EventStep(BatchRun(d, impacts[..|impacts| - 1]), impacts[|impacts| - 1])
  }

  /** The reply of a batch that starts with the books of `repairing` already under repair. */
  function Acknowledged(books: map<string, BookState>, repairing: set<string>, impacts: seq<Impact>): set<string> {
    var d := BatchRun(Desk(books, repairing, {}), impacts);
    d.batchInvalid * d.repairing
  }

  // ----- One pass over the books -----

  datatype Sweep = Sweep(books: map<string, BookState>, repairing: set<string>, batchInvalid: set<string>, invalid: set<string>)

  ghost function Visit(s: Sweep, a: string, p: Impact): Sweep
    requires a in s.books
  {
    var effect := p.on(s.books[a]);
    Sweep(s.books[a := effect.after],
          if effect.repaired then s.repairing - {a} else s.repairing,
          if effect.repaired then s.batchInvalid - {a} else s.batchInvalid,
          if effect.invalid then s.invalid + {a} else s.invalid)
  }

  ghost function Swept(s: Sweep, keys: seq<string>, p: Impact): (r: Sweep)
    requires forall k | k in keys :: k in s.books
    ensures r.books.Keys == s.books.Keys
  {
    if keys == [] then s else Visit(Swept(s, keys[..|keys| - 1], p), keys[|keys| - 1], p)
  }

  lemma {:induction false} SweptAt(s: Sweep, keys: seq<string>, p: Impact, a: string)
    requires forall k | k in keys :: k in s.books
    requires Distinct(keys)
    ensures var r := Swept(s, keys, p);
      && (a in s.books ==> r.books[a] == if a in keys then p.on(s.books[a]).after else s.books[a])
      && (a in r.repairing <==> a in s.repairing && !(a in keys && p.on(s.books[a]).repaired))
      && (a in r.batchInvalid <==> a in s.batchInvalid && !(a in keys && p.on(s.books[a]).repaired))
      && (a in r.invalid <==> a in s.invalid || (a in keys && p.on(s.books[a]).invalid))
  {
    if keys != [] {
      var pre, last := keys[..|keys| - 1], keys[|keys| - 1];
      assert keys == pre + [last];
      SweptAt(s, pre, p, a);
      SweptAt(s, pre, p, last);
    }
  }

  lemma SweptFully(s: Sweep, p: Impact, a: string)
    ensures var r := Swept(s, SortedKeys(s.books.Keys), p);
      && (a in s.books ==> r.books[a] == p.on(s.books[a]).after)
      && (a in r.repairing <==> a in s.repairing && a !in Repaired(s.books, p))
      && (a in r.batchInvalid <==> a in s.batchInvalid && a !in Repaired(s.books, p))
      && (a in r.invalid <==> a in s.invalid || a in Broken(s.books, p))
  {
    SortedKeysDistinct(s.books.Keys);
    SweptAt(s, SortedKeys(s.books.Keys), p, a);
  }

  /** A full pass changes every book once and touches the sets exactly where a book was repaired or broken. */
  lemma SweptAll(s: Sweep, p: Impact)
    ensures var r := Swept(s, SortedKeys(s.books.Keys), p);
      && r.books == BooksAfter(s.books, p)
      && r.repairing == s.repairing - Repaired(s.books, p)
      && r.batchInvalid == s.batchInvalid - Repaired(s.books, p)
      && r.invalid == s.invalid + Broken(s.books, p)
  {
    var keys := SortedKeys(s.books.Keys);
    var r := Swept(s, keys, p);
    var repaired, broken, after := Repaired(s.books, p), Broken(s.books, p), BooksAfter(s.books, p);
    forall a | a in s.books ensures r.books[a] == after[a] {
      SweptFully(s, p, a);
    }
    forall a ensures a in r.repairing <==> a in s.repairing && a !in repaired {
      SweptFully(s, p, a);
    }
    forall a ensures a in r.batchInvalid <==> a in s.batchInvalid && a !in repaired {
      SweptFully(s, p, a);
    }
    forall a ensures a in r.invalid <==> a in s.invalid || a in broken {
      SweptFully(s, p, a);
    }
  }

  class MarketDesk {
    var books: map<string, BookState>
    var repairing: set<string>

    constructor (books: map<string, BookState>)
      ensures this.books == books && repairing == {}
    {
      this.books := books;
      repairing := {};
    }

    method VisitBook(asset: string, p: Impact, invalid: set<string>, batchInvalid: set<string>)
      returns (invalid': set<string>, batchInvalid': set<string>)
      requires asset in books
      modifies this
      ensures Sweep(books, repairing, batchInvalid', invalid') == Visit(Sweep(old(books), old(repairing), batchInvalid, invalid), asset, p)
    {
      invalid', batchInvalid' := invalid, batchInvalid;
      var effect := p.on(books[asset]);
      if effect.invalid {
        invalid' := invalid' + {asset};
      }
      if effect.repaired {
        repairing := repairing - {asset};
        batchInvalid' := batchInvalid' - {asset};
      }
      books := books[asset := effect.after];
    }

    /** Visits every book in key order; repairs leave both sets at once, breakages are collected. */
    method ApplyToBooks(p: Impact, batchInvalid: set<string>) returns (invalid: set<string>, stillInvalid: set<string>)
      modifies this
      ensures books == BooksAfter(old(books), p)
      ensures invalid == Broken(old(books), p)
      ensures stillInvalid == batchInvalid - Repaired(old(books), p)
      ensures repairing == old(repairing) - Repaired(old(books), p)
    {
      var keys := SortedKeys(books.Keys);
      ghost var start := Sweep(books, repairing, batchInvalid, {});
      invalid := {};
      stillInvalid := batchInvalid;
      for i := 0 to |keys|
        invariant books.Keys == start.books.Keys
        invariant Sweep(books, repairing, stillInvalid, invalid) == Swept(start, keys[..i], p)
      {
        assert keys[..i + 1][..i] == keys[..i];
        invalid, stillInvalid := VisitBook(keys[i], p, invalid, stillInvalid);
      }
      assert keys[..|keys|] == keys;
      SweptAll(start, p);
    }

    method HandleEvent(p: Impact, batchInvalid: set<string>) returns (stillInvalid: set<string>)
      modifies this
      ensures Desk(books, repairing, stillInvalid) == EventStep(Desk(old(books), old(repairing), batchInvalid), p)
    {
      var invalid;
      invalid, stillInvalid := ApplyToBooks(p, batchInvalid);
      repairing := repairing - p.resolved;
      stillInvalid := stillInvalid - p.resolved;
      stillInvalid := stillInvalid + invalid;
      repairing := repairing + invalid;
    }

    method HandleBatch(events: seq<MarketEvent>, now: nat) returns (unresolved: set<string>)
      modifies this
      ensures var d := BatchRun(Desk(old(books), old(repairing), {}), Impacts(events, now));
        books == d.books && repairing == d.repairing
      ensures unresolved == Acknowledged(old(books), old(repairing), Impacts(events, now))
      ensures forall a :: a in unresolved <==> LeftBroken(old(books), events, now, a)
      ensures books.Keys == old(books).Keys && forall a | a in books :: books[a] == Fed(old(books)[a], events, now)
    {
      var batchInvalid: set<string> := {};
      var impacts := Impacts(events, now);
      for i := 0 to |impacts|
        invariant Desk(books, repairing, batchInvalid) == BatchRun(Desk(old(books), old(repairing), {}), impacts[..i])
      {
        assert impacts[..i + 1][..i] == impacts[..i];
        batchInvalid := HandleEvent(impacts[i], batchInvalid);
      }
      assert impacts[..|impacts|] == impacts;
      unresolved := batchInvalid * repairing;
      BooksIndependent(old(books), old(repairing), impacts);
      forall a
        ensures a in unresolved <==> LeftBroken(old(books), events, now, a)
        ensures a in old(books) ==> a in books && books[a] == Fed(old(books)[a], events, now)
      {
        AcknowledgedIsOutstanding(old(books), old(repairing), events, now, a);
      }
    }
  }

  // ----- What the reply means -----

  function BooksBefore(books: map<string, BookState>, impacts: seq<Impact>, i: nat): map<string, BookState>
    requires i <= |impacts|
  {
    BatchRun(Desk(books, {}, {}), impacts[..i]).books
  }

  ghost predicate InvalidatedAt(books: map<string, BookState>, impacts: seq<Impact>, a: string, i: nat)
    requires i < |impacts|
  {
    a in Broken(BooksBefore(books, impacts, i), impacts[i])
  }

  /** Event `i` resolves the market, or is a snapshot that leaves the book tradeable. */
  ghost predicate ClearedAt(books: map<string, BookState>, impacts: seq<Impact>, a: string, i: nat)
    requires i < |impacts|
  {
    a in impacts[i].resolved || a in Repaired(BooksBefore(books, impacts, i), impacts[i])
  }

  ghost predicate OutstandingFrom(books: map<string, BookState>, impacts: seq<Impact>, a: string, i: nat)
    requires i < |impacts|
  {
    InvalidatedAt(books, impacts, a, i) && forall j: nat | i < j < |impacts| :: !ClearedAt(books, impacts, a, j)
  }

  /** Some event broke the asset and no later event of the batch repaired or resolved it. */
  ghost predicate Outstanding(books: map<string, BookState>, impacts: seq<Impact>, a: string) {
    exists i: nat | i < |impacts| :: OutstandingFrom(books, impacts, a, i)
  }

  lemma {:induction false} BooksIndependent(books: map<string, BookState>, repairing: set<string>, impacts: seq<Impact>)
    ensures BatchRun(Desk(books, repairing, {}), impacts).books == BatchRun(Desk(books, {}, {}), impacts).books
    ensures BatchRun(Desk(books, repairing, {}), impacts).books.Keys == books.Keys
  {
    if impacts != [] {
      BooksIndependent(books, repairing, impacts[..|impacts| - 1]);
    }
  }

  lemma PrefixAgrees(books: map<string, BookState>, impacts: seq<Impact>, n: nat, a: string, i: nat)
    requires i < n <= |impacts|
    ensures InvalidatedAt(books, impacts, a, i) == InvalidatedAt(books, impacts[..n], a, i)
    ensures ClearedAt(books, impacts, a, i) == ClearedAt(books, impacts[..n], a, i)
  {
    assert impacts[..i] == impacts[..n][..i];
  }

  lemma OutstandingExtends(books: map<string, BookState>, impacts: seq<Impact>, a: string, i: nat)
    requires i < |impacts| - 1
    ensures var n := |impacts| - 1;
      OutstandingFrom(books, impacts, a, i) <==>
        OutstandingFrom(books, impacts[..n], a, i) && !ClearedAt(books, impacts, a, n)
  {
    var n := |impacts| - 1;
    PrefixAgrees(books, impacts, n, a, i);
    forall j: nat | i < j < n ensures ClearedAt(books, impacts, a, j) == ClearedAt(books, impacts[..n], a, j) {
      PrefixAgrees(books, impacts, n, a, j);
    }
  }

  lemma OutstandingStep(books: map<string, BookState>, impacts: seq<Impact>, a: string)
    requires impacts != []
    ensures var n := |impacts| - 1;
      Outstanding(books, impacts, a) <==>
        InvalidatedAt(books, impacts, a, n)
        || (Outstanding(books, impacts[..n], a) && !ClearedAt(books, impacts, a, n))
  {
    var n := |impacts| - 1;
    forall i: nat | i < n
      ensures OutstandingFrom(books, impacts, a, i) <==>
        OutstandingFrom(books, impacts[..n], a, i) && !ClearedAt(books, impacts, a, n)
    {
      OutstandingExtends(books, impacts, a, i);
    }
    assert OutstandingFrom(books, impacts, a, n) <==> InvalidatedAt(books, impacts, a, n);
  }

  lemma {:induction false} ReplyIsOutstanding(books: map<string, BookState>, repairing: set<string>, impacts: seq<Impact>, a: string)
    ensures a in Acknowledged(books, repairing, impacts) <==> Outstanding(books, impacts, a)
    ensures var d := BatchRun(Desk(books, repairing, {}), impacts);
      d.batchInvalid <= d.repairing && d.batchInvalid <= books.Keys
  {
    if impacts != [] {
      var n := |impacts| - 1;
      ReplyIsOutstanding(books, repairing, impacts[..n], a);
      BooksIndependent(books, repairing, impacts[..n]);
      OutstandingStep(books, impacts, a);
    }
  }

  /** Under repair after a batch: what it left outstanding, and what was under repair before and nothing cleared. */
  ghost predicate StillRepairing(books: map<string, BookState>, repairing: set<string>, impacts: seq<Impact>, a: string) {
    Outstanding(books, impacts, a) || (a in repairing && forall j: nat | j < |impacts| :: !ClearedAt(books, impacts, a, j))
  }

  lemma {:induction false} RepairingIsOutstanding(books: map<string, BookState>, repairing: set<string>, impacts: seq<Impact>, a: string)
    ensures a in BatchRun(Desk(books, repairing, {}), impacts).repairing <==> StillRepairing(books, repairing, impacts, a)
  {
    if impacts != [] {
      var n := |impacts| - 1;
      RepairingIsOutstanding(books, repairing, impacts[..n], a);
      BooksIndependent(books, repairing, impacts[..n]);
      OutstandingStep(books, impacts, a);
      forall j: nat | j < n ensures ClearedAt(books, impacts, a, j) == ClearedAt(books, impacts[..n], a, j) {
        PrefixAgrees(books, impacts, n, a, j);
      }
      assert (forall j: nat | j < n + 1 :: !ClearedAt(books, impacts, a, j)) <==>
        !ClearedAt(books, impacts, a, n) && forall j: nat | j < n :: !ClearedAt(books, impacts[..n], a, j);
    }
  }

  // ----- Breaking and clearing, over the events and the books -----

  /** The event speaks of this asset. */
  ghost predicate Names(e: MarketEvent, asset: string) {
    match e
    case BookSnapshot(a, _, _, _, _) => a == asset
    case TickSizeChange(a, _, _, _) => a == asset
    case LastTradePrice(a, _, _, _, _) => a == asset
    case BestBidAsk(a, _, _, _) => a == asset
    case PriceChanges(_, changes) => exists i | 0 <= i < |changes| :: changes[i].assetId == asset
    case MarketResolved(assets) => asset in assets
    case NewMarket(_) => false
  }

  /** A book fed with events, refused ones included. */
  function Fed(b: BookState, events: seq<MarketEvent>, now: nat): BookState {
    if events == [] then b else ApplyEvent(Fed(b, events[..|events| - 1], now), events[|events| - 1], now).0
  }

  /** The event names the book's asset, and the book refuses it or is left untradeable by a change of tick size. */
  ghost predicate Breaks(b: BookState, e: MarketEvent, now: nat) {
    var (after, r) := ApplyEvent(b, e, now);
    Names(e, b.assetId) && (r.Err? || (e.TickSizeChange? && !after.tradeable))
  }

  /** The event is a snapshot of the book's asset that leaves it tradeable with a hash, or it resolves the market of `a`. */
  ghost predicate Clears(b: BookState, a: string, e: MarketEvent, now: nat) {
    var after := ApplyEvent(b, e, now).0;
    (e.BookSnapshot? && e.assetId == b.assetId && after.tradeable && after.hash.Some?) || (e.MarketResolved? && a in e.assetIds)
  }

  ghost predicate BreaksAt(books: map<string, BookState>, events: seq<MarketEvent>, now: nat, a: string, i: nat)
    requires i < |events|
  {
    a in books && Breaks(Fed(books[a], events[..i], now), events[i], now)
  }

  ghost predicate ClearsAt(books: map<string, BookState>, events: seq<MarketEvent>, now: nat, a: string, i: nat)
    requires i < |events|
  {
    if a in books then Clears(Fed(books[a], events[..i], now), a, events[i], now) else events[i].MarketResolved? && a in events[i].assetIds
  }

  lemma NamesMeaning(e: MarketEvent, asset: string)
    ensures asset in EventAssets(e) <==> Names(e, asset)
  {
    if e.PriceChanges? {
      if asset in EventAssets(e) {
        var c :| c in e.changes && c.assetId == asset;
        var i :| 0 <= i < |e.changes| && e.changes[i] == c;
      }
      if Names(e, asset) {
        var i :| 0 <= i < |e.changes| && e.changes[i].assetId == asset;
        assert e.changes[i] in e.changes;
      }
    }
  }

  /** What one event does to one book, and what it counts as. */
  lemma EffectMeaning(b: BookState, e: MarketEvent, now: nat)
    ensures EffectOf(b, e, now).after == ApplyEvent(b, e, now).0
    ensures EffectOf(b, e, now).invalid <==> Breaks(b, e, now)
    ensures EffectOf(b, e, now).repaired <==>
      e.BookSnapshot? && e.assetId == b.assetId && ApplyEvent(b, e, now).0.tradeable && ApplyEvent(b, e, now).0.hash.Some?
  {
    NamesMeaning(e, b.assetId);
    RefusalBreaks(b, e, now);
  }

  lemma {:induction false} BooksFed(books: map<string, BookState>, events: seq<MarketEvent>, now: nat, a: string)
    requires a in books
    ensures a in BatchRun(Desk(books, {}, {}), Impacts(events, now)).books
    ensures BatchRun(Desk(books, {}, {}), Impacts(events, now)).books[a] == Fed(books[a], events, now)
    decreases |events|
  {
    if events != [] {
      var n := |events| - 1;
      BooksFed(books, events[..n], now, a);
      assert Impacts(events, now)[..n] == Impacts(events[..n], now);
      EffectMeaning(Fed(books[a], events[..n], now), events[n], now);
    }
  }

  lemma EventMeaning(books: map<string, BookState>, events: seq<MarketEvent>, now: nat, a: string, i: nat)
    requires i < |events|
    ensures InvalidatedAt(books, Impacts(events, now), a, i) <==> BreaksAt(books, events, now, a, i)
    ensures ClearedAt(books, Impacts(events, now), a, i) <==> ClearsAt(books, events, now, a, i)
  {
    assert Impacts(events, now)[..i] == Impacts(events[..i], now);
    if a in books {
      BooksFed(books, events[..i], now, a);
      EffectMeaning(Fed(books[a], events[..i], now), events[i], now);
    }
    BooksIndependent(books, {}, Impacts(events[..i], now));
  }

  /** Some event breaks the asset and no later one of the batch clears it. */
  ghost predicate LeftBroken(books: map<string, BookState>, events: seq<MarketEvent>, now: nat, a: string) {
    exists i: nat | i < |events| :: BreaksAt(books, events, now, a, i) && forall j: nat | i < j < |events| :: !ClearsAt(books, events, now, a, j)
  }

  lemma OutstandingMeaning(books: map<string, BookState>, events: seq<MarketEvent>, now: nat, a: string)
    ensures Outstanding(books, Impacts(events, now), a) <==> LeftBroken(books, events, now, a)
  {
    hide InvalidatedAt, ClearedAt, BreaksAt, ClearsAt;
    var impacts := Impacts(events, now);
    forall i: nat | i < |events|
      ensures InvalidatedAt(books, impacts, a, i) <==> BreaksAt(books, events, now, a, i)
      ensures ClearedAt(books, impacts, a, i) <==> ClearsAt(books, events, now, a, i)
    {
      EventMeaning(books, events, now, a, i);
    }
    if Outstanding(books, impacts, a) {
      var i: nat :| i < |impacts| && OutstandingFrom(books, impacts, a, i);
      assert BreaksAt(books, events, now, a, i);
    }
    if LeftBroken(books, events, now, a) {
      var i: nat :| i < |events| && BreaksAt(books, events, now, a, i) && forall j: nat | i < j < |events| :: !ClearsAt(books, events, now, a, j);
      assert OutstandingFrom(books, impacts, a, i);
    }
  }

  /**
   * The reply to a batch is exactly the configured assets that some event broke and no later one cleared, whatever was
   * already under repair; those are under repair after it, with the ones that were before and that nothing cleared.
   */
  lemma AcknowledgedIsOutstanding(books: map<string, BookState>, repairing: set<string>, events: seq<MarketEvent>, now: nat, a: string)
    ensures a in Acknowledged(books, repairing, Impacts(events, now)) <==> LeftBroken(books, events, now, a)
    ensures a in BatchRun(Desk(books, repairing, {}), Impacts(events, now)).repairing <==>
      LeftBroken(books, events, now, a) || (a in repairing && forall j: nat | j < |events| :: !ClearsAt(books, events, now, a, j))
    ensures a in books ==> var after := BatchRun(Desk(books, repairing, {}), Impacts(events, now)).books;
      a in after && after[a] == Fed(books[a], events, now)
  {
    hide InvalidatedAt, ClearedAt, BreaksAt, ClearsAt, Outstanding, LeftBroken, Acknowledged;
    var impacts := Impacts(events, now);
    ReplyIsOutstanding(books, repairing, impacts, a);
    RepairingIsOutstanding(books, repairing, impacts, a);
    OutstandingMeaning(books, events, now, a);
    forall j: nat | j < |events| ensures ClearedAt(books, impacts, a, j) <==> ClearsAt(books, events, now, a, j) {
      EventMeaning(books, events, now, a, j);
    }
    BooksIndependent(books, repairing, impacts);
    if a in books {
      BooksFed(books, events, now, a);
    }
  }

  // ----- Breaking and repairing never coincide, and only named books break -----

  lemma {:induction false} MatchingNames(changes: seq<PriceChange>, asset: string)
    ensures Matching(changes, asset) != [] ==> asset in set c | c in changes :: c.assetId
  {
    if changes != [] {
      MatchingNames(changes[1..], asset);
      assert changes[0] in changes;
      assert forall c | c in changes[1..] :: c in changes;
    }
  }

  lemma DeltaErrorNames(b: BookState, timestamp: nat, changes: seq<PriceChange>, now: nat)
    requires ApplyDelta(b, timestamp, changes, now).1.Err?
    ensures b.assetId in EventAssets(PriceChanges(timestamp, changes))
  {
    MatchingNames(changes, b.assetId);
  }

  /** An event is refused only by a book it names, so a refusal is always counted as a breakage, and it stops trading. */
  lemma RefusalBreaks(b: BookState, e: MarketEvent, now: nat)
    ensures ApplyEvent(b, e, now).1.Err? ==> EffectOf(b, e, now).invalid && !EffectOf(b, e, now).after.tradeable
    ensures !(EffectOf(b, e, now).invalid && EffectOf(b, e, now).repaired)
  {
    if e.PriceChanges? && ApplyEvent(b, e, now).1.Err? {
      DeltaErrorNames(b, e.timestamp, e.changes, now);
    }
  }
}
