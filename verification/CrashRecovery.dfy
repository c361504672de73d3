/** Startup reconciliation of order attempts: which are still in flight, and which own the venue's open orders. */
module CrashRecovery {
  import opened Prelude
  import opened Ordered
  import opened FixedPoint
  import opened Journal
  import opened WriteAhead

  datatype RemoteState = RemoteState(
    openOrdersLoaded: bool, tradesLoaded: bool, balancesLoaded: bool, allowancesLoaded: bool,
    openOrderIds: set<string>, tradeOrderIds: set<string>, unresolvedGaps: seq<string>)

  datatype Report = Report(liveUnlockAllowed: bool, reason: string, replayedRecords: nat, inFlightAttempts: nat)

  datatype OpenOrder = OpenOrder(clientOrderId: string, submittedAtMs: int, assetId: seq<Byte>)

  datatype UnresolvedAttempt = UnresolvedAttempt(
    decisionId: string, clientOrderId: string, exchangeOrderId: string, strategyId: string)

  type Attempts = map<string, seq<Record>>

  // ----- Grouping -----

  function Grouped(attempts: Attempts, r: Record): Attempts {
    var id := r.entry.clientOrderId;
    if id in attempts then attempts[id := attempts[id] + [r]]
    else if r.entry.kind.WriteAhead? then attempts[id := [r]]
    else attempts
  }

  function Group(records: seq<Record>): Attempts {
    if records == [] then map[] else Grouped(Group(records[..|records| - 1]), records[|records| - 1])
  }

  method GroupAttempts(records: seq<Record>) returns (attempts: Attempts)
    ensures attempts == Group(records)
  {
    attempts := map[];
    for i := 0 to |records|
      invariant attempts == Group(records[..i])
    {
      assert records[..i + 1][..i] == records[..i];
      assert Group(records[..i + 1]) == Grouped(Group(records[..i]), records[i]);
      var id := records[i].entry.clientOrderId;
      ghost var before := attempts;
      if records[i].entry.kind.WriteAhead? && id !in attempts {
        attempts := attempts[id := []];
      }
      if id in attempts {
        attempts := attempts[id := attempts[id] + [records[i]]];
      }
      assert [] + [records[i]] == [records[i]];
      assert attempts == Grouped(before, records[i]);
    }
    assert records[..|records|] == records;
  }

  /** Records of one client order id, in order. */
  function OfClient(records: seq<Record>, id: string): seq<Record> {
    if records == [] then []
    else
      var rest := OfClient(records[..|records| - 1], id);
      if records[|records| - 1].entry.clientOrderId == id then rest + [records[|records| - 1]] else rest
  }

  /** Where the attempt starts: its first write-ahead record, or the end when there is none. */
  function FirstWriteAhead(records: seq<Record>, id: string): (n: nat)
    ensures n <= |records|
    ensures n < |records| ==> records[n].entry.kind.WriteAhead? && records[n].entry.clientOrderId == id
    ensures forall i | 0 <= i < n :: !(records[i].entry.kind.WriteAhead? && records[i].entry.clientOrderId == id)
  {
    if records == [] then 0
    else if records[0].entry.kind.WriteAhead? && records[0].entry.clientOrderId == id then 0
    else 1 + FirstWriteAhead(records[1..], id)
  }

  /** An attempt is every record of its client order id from the first write-ahead record on. */
  function AttemptOf(records: seq<Record>, id: string): seq<Record> {
    OfClient(records[FirstWriteAhead(records, id)..], id)
  }

  lemma {:induction false} OfClientHead(records: seq<Record>, id: string)
    requires records != [] && records[0].entry.clientOrderId == id
    ensures OfClient(records, id) != [] && OfClient(records, id)[0] == records[0]
  {
    if |records| > 1 {
      OfClientHead(records[..|records| - 1], id);
    } else {
      assert OfClient(records[..0], id) == [];
    }
  }

  lemma AttemptStarts(records: seq<Record>, id: string)
    ensures var n := FirstWriteAhead(records, id);
      if n < |records| then AttemptOf(records, id) != [] && AttemptOf(records, id)[0] == records[n]
      else AttemptOf(records, id) == []
  {
    var n := FirstWriteAhead(records, id);
    if n < |records| {
      OfClientHead(records[n..], id);
    }
  }

  lemma AttemptGrows(rest: seq<Record>, last: Record, id: string)
    ensures AttemptOf(rest + [last], id) ==
      if last.entry.clientOrderId == id && (AttemptOf(rest, id) != [] || last.entry.kind.WriteAhead?)
      then AttemptOf(rest, id) + [last] else AttemptOf(rest, id)
  {
    var records := rest + [last];
    var n, m := FirstWriteAhead(records, id), FirstWriteAhead(rest, id);
    AttemptStarts(rest, id);
    assert forall i | 0 <= i < |rest| :: records[i] == rest[i];
    if m < |rest| {
      assert n == m;
      assert records[n..] == rest[m..] + [last];
      assert (rest[m..] + [last])[..|rest[m..]|] == rest[m..];
    } else if last.entry.clientOrderId == id && last.entry.kind.WriteAhead? {
      assert records[|rest|] == last;
      assert n == |rest| && records[n..] == [last];
      assert [last][..0] == [];
    } else {
      assert n == |records| && records[n..] == [];
    }
  }

  lemma {:induction false} GroupMeaning(records: seq<Record>, id: string)
    ensures id in Group(records) <==> AttemptOf(records, id) != []
    ensures id in Group(records) ==> Group(records)[id] == AttemptOf(records, id)
  {
    if records == [] {
      assert AttemptOf(records, id) == [];
    } else {
      var rest, last := records[..|records| - 1], records[|records| - 1];
      GroupMeaning(rest, id);
      assert records == rest + [last];
      AttemptGrows(rest, last, id);
    }
  }

  // ----- Attempts -----

  predicate IsTerminal(r: Record) {
    r.entry.kind.Rejected? || r.entry.kind.Filled? || r.entry.kind.Cancelled?
  }

  predicate InFlight(attempt: seq<Record>) {
    forall r | r in attempt :: !IsTerminal(r)
  }

  /** The ids the venue gave to an attempt. */
  function ExchangeIds(attempt: seq<Record>): set<string> {
    set r | r in attempt && r.entry.exchangeOrderId.Some? :: r.entry.exchangeOrderId.value
  }

  function InFlightIds(attempts: Attempts): set<string> {
    set id | id in attempts && InFlight(attempts[id])
  }

  /** The latest exchange id of an attempt that is in `ids`. */
  function LastIdIn(attempt: seq<Record>, ids: set<string>): (o: Option<string>)
    ensures o.Some? <==> ExchangeIds(attempt) * ids != {}
    ensures o.Some? ==> o.value in ExchangeIds(attempt) && o.value in ids
  {
    if attempt == [] then None
    else
      var r, rest := attempt[|attempt| - 1], attempt[..|attempt| - 1];
      assert attempt == rest + [r];
      assert ExchangeIds(attempt) == ExchangeIds(rest) + (if r.entry.exchangeOrderId.Some? then {r.entry.exchangeOrderId.value} else {});
      assert r.entry.exchangeOrderId.Some? ==> r.entry.exchangeOrderId.value in ExchangeIds(attempt);
      if r.entry.exchangeOrderId.Some? && r.entry.exchangeOrderId.value in ids then
        assert r.entry.exchangeOrderId.value in ExchangeIds(attempt) * ids;
        r.entry.exchangeOrderId
      else LastIdIn(rest, ids)
  }

  /** The last record of the attempt that has an id in `ids` has this one. */
  ghost predicate Latest(attempt: seq<Record>, ids: set<string>, o: string) {
    o in ids && exists i | 0 <= i < |attempt| :: LatestAt(attempt, ids, o, i)
  }

  ghost predicate LatestAt(attempt: seq<Record>, ids: set<string>, o: string, i: nat)
    requires i < |attempt|
  {
    && attempt[i].entry.exchangeOrderId == Some(o)
    && forall j | i < j < |attempt| :: attempt[j].entry.exchangeOrderId.None? || attempt[j].entry.exchangeOrderId.value !in ids
  }

  lemma {:induction false} LastIsLatest(attempt: seq<Record>, ids: set<string>, o: string)
    ensures LastIdIn(attempt, ids) == Some(o) <==> Latest(attempt, ids, o)
  {
    if attempt != [] {
      var n := |attempt| - 1;
      LastIsLatest(attempt[..n], ids, o);
      var id := attempt[n].entry.exchangeOrderId;
      if id.Some? && id.value in ids {
        assert LatestAt(attempt, ids, id.value, n);
      } else {
        forall i | 0 <= i < n ensures LatestAt(attempt, ids, o, i) <==> LatestAt(attempt[..n], ids, o, i) {
        }
      }
    }
  }

  // ----- The report -----

  function Blocked(reason: string, replayed: nat, inFlight: nat): Report {
    Report(false, reason, replayed, inFlight)
  }

  predicate ContainsAttempt(remote: RemoteState, attempt: seq<Record>) {
    ExchangeIds(attempt) * (remote.openOrderIds + remote.tradeOrderIds) != {}
  }

  /** Open orders of the venue that an attempt in flight names. */
  function MappedOpenOrders(attempts: Attempts, remote: RemoteState): set<string> {
    set id, o | id in InFlightIds(attempts) && o in ExchangeIds(attempts[id]) && o in remote.openOrderIds :: o
  }

  /** Attempts in flight that the venue knows nothing of. */
  function UnresolvedIds(attempts: Attempts, remote: RemoteState): set<string> {
    set id | id in InFlightIds(attempts) && !ContainsAttempt(remote, attempts[id])
  }

  /** `recover_after_crash_records`. */
  function RecoverAfterCrash(records: seq<Record>, remote: RemoteState): Report {
    var attempts := Group(records);
    var inFlight := InFlightIds(attempts);
    if !remote.openOrdersLoaded then Blocked("open_orders_not_loaded", |records|, |inFlight|)
    else if !remote.tradesLoaded then Blocked("trades_not_loaded", |records|, |inFlight|)
    else if !remote.balancesLoaded then Blocked("balances_not_loaded", |records|, |inFlight|)
    else if !remote.allowancesLoaded then Blocked("allowances_not_loaded", |records|, |inFlight|)
    else if remote.unresolvedGaps != [] then Blocked("unresolved_reconciliation_gaps", |records|, |inFlight|)
    else if |UnresolvedIds(attempts, remote)| > 0 then Blocked("unresolved_in_flight_attempts", |records|, |inFlight|)
    else if !(remote.openOrderIds <= MappedOpenOrders(attempts, remote)) then Blocked("unmapped_remote_open_orders", |records|, |inFlight|)
    else Report(true, "reconciled", |records|, |inFlight|)
  }

  predicate FullyLoaded(remote: RemoteState) {
    remote.openOrdersLoaded && remote.tradesLoaded && remote.balancesLoaded && remote.allowancesLoaded && remote.unresolvedGaps == []
  }

  /** The venue gave the attempt this id. */
  ghost predicate NamedBy(attempt: seq<Record>, o: string) {
    exists r :: r in attempt && r.entry.exchangeOrderId == Some(o)
  }

  /** The attempt of an order that may still be live: no record of it says rejected, filled or cancelled. */
  ghost predicate Pending(records: seq<Record>, id: string) {
    && AttemptOf(records, id) != []
    && forall r | r in AttemptOf(records, id) :: !r.entry.kind.Rejected? && !r.entry.kind.Filled? && !r.entry.kind.Cancelled?
  }

  /** The attempt names an order the venue reports as open or traded. */
  ghost predicate KnownToVenue(attempt: seq<Record>, remote: RemoteState) {
    exists o :: NamedBy(attempt, o) && (o in remote.openOrderIds || o in remote.tradeOrderIds)
  }

  lemma NamedIds(attempt: seq<Record>, o: string)
    ensures NamedBy(attempt, o) <==> o in ExchangeIds(attempt)
  {
    if o in ExchangeIds(attempt) {
      var r :| r in attempt && r.entry.exchangeOrderId.Some? && r.entry.exchangeOrderId.value == o;
      assert r.entry.exchangeOrderId == Some(o);
    }
  }

  lemma ContainsMeaning(attempt: seq<Record>, remote: RemoteState)
    ensures ContainsAttempt(remote, attempt) <==> KnownToVenue(attempt, remote)
  {
    var both := ExchangeIds(attempt) * (remote.openOrderIds + remote.tradeOrderIds);
    if o :| NamedBy(attempt, o) && (o in remote.openOrderIds || o in remote.tradeOrderIds) {
      NamedIds(attempt, o);
      assert o in both;
    }
    if o :| o in both {
      NamedIds(attempt, o);
    }
  }

  lemma InFlightMeaning(records: seq<Record>, id: string)
    ensures id in InFlightIds(Group(records)) <==> Pending(records, id)
    ensures id in Group(records) ==> Group(records)[id] == AttemptOf(records, id)
  {
    GroupMeaning(records, id);
  }

  lemma UnresolvedMeaning(records: seq<Record>, remote: RemoteState)
    ensures UnresolvedIds(Group(records), remote) == {} <==>
      forall id | Pending(records, id) :: KnownToVenue(AttemptOf(records, id), remote)
  {
    var unresolved := UnresolvedIds(Group(records), remote);
    forall id ensures id in unresolved <==> Pending(records, id) && !KnownToVenue(AttemptOf(records, id), remote) {
      InFlightMeaning(records, id);
      ContainsMeaning(AttemptOf(records, id), remote);
    }
  }

  lemma MappedMeaning(records: seq<Record>, remote: RemoteState, o: string)
    ensures o in MappedOpenOrders(Group(records), remote) <==>
      o in remote.openOrderIds && exists id :: Pending(records, id) && NamedBy(AttemptOf(records, id), o)
  {
    var attempts := Group(records);
    if id :| Pending(records, id) && NamedBy(AttemptOf(records, id), o) {
      InFlightMeaning(records, id);
      NamedIds(AttemptOf(records, id), o);
      assert id in InFlightIds(attempts) && o in ExchangeIds(attempts[id]);
    }
    if o in MappedOpenOrders(attempts, remote) {
      var id :| id in InFlightIds(attempts) && o in ExchangeIds(attempts[id]);
      InFlightMeaning(records, id);
      NamedIds(AttemptOf(records, id), o);
    }
  }

  /**
   * Unlocking means: all state loaded, every attempt with no rejection, fill or cancellation known to the venue, and every
   * open order named by such an attempt.
   */
  lemma UnlockMeaning(records: seq<Record>, remote: RemoteState)
    ensures RecoverAfterCrash(records, remote).liveUnlockAllowed <==>
      && FullyLoaded(remote)
      && (forall id | Pending(records, id) :: KnownToVenue(AttemptOf(records, id), remote))
      && (forall o | o in remote.openOrderIds :: exists id :: Pending(records, id) && NamedBy(AttemptOf(records, id), o))
  {
    UnresolvedMeaning(records, remote);
    forall o | o in remote.openOrderIds
      ensures o in MappedOpenOrders(Group(records), remote) <==>
        exists id :: Pending(records, id) && NamedBy(AttemptOf(records, id), o)
    {
      MappedMeaning(records, remote, o);
    }
  }

  lemma {:induction false} OfClientMembers(records: seq<Record>, id: string, r: Record)
    ensures r in OfClient(records, id) <==> r in records && r.entry.clientOrderId == id
  {
    if records != [] {
      OfClientMembers(records[..|records| - 1], id, r);
      assert records == records[..|records| - 1] + [records[|records| - 1]];
    }
  }

  lemma AttemptMember(records: seq<Record>, id: string, r: Record)
    requires r in AttemptOf(records, id)
    ensures r in records && r.entry.clientOrderId == id
  {
    OfClientMembers(records[FirstWriteAhead(records, id)..], id, r);
  }

  /** What the report counts: the records replayed, and the attempts that are pending. */
  lemma ReportCounts(records: seq<Record>, remote: RemoteState)
    ensures var pending := set r | r in records && Pending(records, r.entry.clientOrderId) :: r.entry.clientOrderId;
      && RecoverAfterCrash(records, remote).replayedRecords == |records|
      && RecoverAfterCrash(records, remote).inFlightAttempts == |pending|
  {
    var pending := set r | r in records && Pending(records, r.entry.clientOrderId) :: r.entry.clientOrderId;
    forall id ensures id in InFlightIds(Group(records)) <==> id in pending {
      InFlightMeaning(records, id);
      if Pending(records, id) {
        AttemptMember(records, id, AttemptOf(records, id)[0]);
        assert AttemptOf(records, id)[0] in records;
      }
    }
    assert InFlightIds(Group(records)) == pending;
  }

  // ----- Open order mappings -----

  /** How a write-ahead payload yields its asset. */
  type Decoder = string -> Result<seq<Byte>>

  function AssetDecoder(utf8: seq<Byte> -> bool): Decoder {
    (payload: string) => RecoverAsset(payload, utf8)
  }

  function WriteAheadOf(attempt: seq<Record>): Option<Record> {
    if attempt == [] then None else if attempt[0].entry.kind.WriteAhead? then Some(attempt[0]) else WriteAheadOf(attempt[1..])
  }

  /** The recovered order of one attempt, or the error its write-ahead record gives. */
  function OpenOrderOf(id: string, attempt: seq<Record>, decode: Decoder): Result<OpenOrder> {
    var first := WriteAheadOf(attempt);
    if first.None? then Err("write_ahead_timestamp_missing")
    else if first.value.timestamp > U64_MAX then Err("journal_timestamp_exceeds_u64")
    else
      var assetId :- decode(first.value.entry.payload);
      Ok(OpenOrder(id, first.value.timestamp, assetId))
  }

  type Mappings = map<string, OpenOrder>

  function MapAttempt(recovered: Mappings, id: string, attempt: seq<Record>, open: set<string>, decode: Decoder): Result<Mappings> {
    var exchangeId := if InFlight(attempt) then LastIdIn(attempt, open) else None;
    if exchangeId.None? then Ok(recovered)
    else
      var order :- OpenOrderOf(id, attempt, decode);
      Ok(recovered[exchangeId.value := order])
  }

  function MapFrom(recovered: Mappings, ids: seq<string>, attempts: Attempts, open: set<string>, decode: Decoder): Result<Mappings>
    requires forall id | id in ids :: id in attempts
    decreases |ids|
  {
    if ids == [] then Ok(recovered)
    else
      var next :- MapAttempt(recovered, ids[0], attempts[ids[0]], open, decode);
      MapFrom(next, ids[1..], attempts, open, decode)
  }

  function OpenOrderMappings(records: seq<Record>, open: set<string>, decode: Decoder): Result<Mappings> {
    MapFrom(map[], SortedKeys(Group(records).Keys), Group(records), open, decode)
  }

  /** `recover_open_order_mappings_records`. */
  method RecoverOpenOrderMappings(records: seq<Record>, open: set<string>, decode: Decoder) returns (r: Result<Mappings>)
    ensures r == OpenOrderMappings(records, open, decode)
  {
    var attempts := GroupAttempts(records);
    var ids := SortedKeys(attempts.Keys);
    var recovered: Mappings := map[];
    assert ids[0..] == ids;
    for i := 0 to |ids|
      invariant MapFrom(recovered, ids[i..], attempts, open, decode) == OpenOrderMappings(records, open, decode)
    {
      assert ids[i..][1..] == ids[i + 1..];
      var attempt := attempts[ids[i]];
      if InFlight(attempt) {
        var exchangeId := LastIdIn(attempt, open);
        if exchangeId.Some? {
          var order := OpenOrderOf(ids[i], attempt, decode);
          if order.Err? {
            return Err(order.error);
          }
          recovered := recovered[exchangeId.value := order.value];
        }
      }
    }
    return Ok(recovered);
  }

  lemma {:induction false} MapFromDefined(recovered: Mappings, ids: seq<string>, attempts: Attempts, open: set<string>, decode: Decoder)
    requires forall id | id in ids :: id in attempts
    ensures MapFrom(recovered, ids, attempts, open, decode).Ok? <==>
      forall id | id in ids && InFlight(attempts[id]) && LastIdIn(attempts[id], open).Some? :: OpenOrderOf(id, attempts[id], decode).Ok?
    decreases |ids|
  {
    if ids != [] {
      assert forall id :: id in ids <==> id == ids[0] || id in ids[1..];
      var next := MapAttempt(recovered, ids[0], attempts[ids[0]], open, decode);
      if next.Ok? {
        MapFromDefined(next.value, ids[1..], attempts, open, decode);
      }
    }
  }

  /** The mapping fails exactly when a pending attempt that names an open order has a write-ahead record that cannot be read. */
  lemma MappingsDefined(records: seq<Record>, open: set<string>, decode: Decoder)
    ensures OpenOrderMappings(records, open, decode).Ok? <==>
      forall id, o | Pending(records, id) && NamedBy(AttemptOf(records, id), o) && o in open ::
        Readable(records, FirstWriteAhead(records, id), decode)
  {
    hide Group, MapFrom, Pending, NamedBy, LastIdIn, AttemptOf, OpenOrderOf, Readable, InFlight;
    var attempts := Group(records);
    MapFromDefined(map[], SortedKeys(attempts.Keys), attempts, open, decode);
    forall id
      ensures id in attempts && InFlight(attempts[id]) <==> Pending(records, id)
      ensures id in attempts ==> attempts[id] == AttemptOf(records, id)
      ensures LastIdIn(AttemptOf(records, id), open).Some? <==> exists o :: NamedBy(AttemptOf(records, id), o) && o in open
      ensures Pending(records, id) ==>
        (OpenOrderOf(id, AttemptOf(records, id), decode).Ok? <==> Readable(records, FirstWriteAhead(records, id), decode))
    {
      PendingInFlight(records, id);
      SomeOpenId(AttemptOf(records, id), open);
      if Pending(records, id) {
        OrderReadable(records, id, decode);
      }
    }
  }

  lemma PendingInFlight(records: seq<Record>, id: string)
    ensures id in Group(records) && InFlight(Group(records)[id]) <==> Pending(records, id)
    ensures id in Group(records) ==> Group(records)[id] == AttemptOf(records, id)
  {
    hide Group;
    InFlightMeaning(records, id);
  }

  lemma OrderReadable(records: seq<Record>, id: string, decode: Decoder)
    requires Pending(records, id)
    ensures OpenOrderOf(id, AttemptOf(records, id), decode).Ok? <==> Readable(records, FirstWriteAhead(records, id), decode)
  {
    hide AttemptOf;
    WriteAheadStarts(records, id);
  }

  ghost predicate Readable(records: seq<Record>, n: nat, decode: Decoder) {
    n < |records| && records[n].timestamp <= U64_MAX && decode(records[n].entry.payload).Ok?
  }

  lemma SomeOpenId(attempt: seq<Record>, open: set<string>)
    ensures LastIdIn(attempt, open).Some? <==> exists o :: NamedBy(attempt, o) && o in open
  {
    if o :| NamedBy(attempt, o) && o in open {
      NamedIds(attempt, o);
      assert o in ExchangeIds(attempt) * open;
    }
    if LastIdIn(attempt, open).Some? {
      NamedIds(attempt, LastIdIn(attempt, open).value);
    }
  }

  /** Every key is the latest open id of a pending attempt, and its value is the order that attempt wrote ahead. */
  ghost predicate Owns(records: seq<Record>, id: string, o: string, open: set<string>) {
    Pending(records, id) && Latest(AttemptOf(records, id), open, o)
  }

  ghost predicate WrittenBy(o: string, order: OpenOrder, records: seq<Record>, open: set<string>, decode: Decoder) {
    exists id :: Owns(records, id, o, open) && OpenOrderOf(id, AttemptOf(records, id), decode) == Ok(order)
  }

  ghost predicate Explained(recovered: Mappings, records: seq<Record>, open: set<string>, decode: Decoder) {
    forall o | o in recovered :: WrittenBy(o, recovered[o], records, open, decode)
  }

  lemma MapAttemptExplained(recovered: Mappings, id: string, records: seq<Record>, open: set<string>, decode: Decoder)
    requires id in Group(records) && Explained(recovered, records, open, decode)
    requires MapAttempt(recovered, id, Group(records)[id], open, decode).Ok?
    ensures var next := MapAttempt(recovered, id, Group(records)[id], open, decode).value;
      && Explained(next, records, open, decode) && recovered.Keys <= next.Keys
      && (forall o | Owns(records, id, o, open) :: o in next)
  {
    InFlightMeaning(records, id);
    var attempt := AttemptOf(records, id);
    forall o ensures LastIdIn(attempt, open) == Some(o) <==> Latest(attempt, open, o) {
      LastIsLatest(attempt, open, o);
    }
    var next := MapAttempt(recovered, id, attempt, open, decode).value;
    if InFlight(attempt) && LastIdIn(attempt, open).Some? {
      var last := LastIdIn(attempt, open).value;
      GroupMeaning(records, id);
      assert Owns(records, id, last, open);
      assert WrittenBy(last, next[last], records, open, decode);
      forall o | o in next ensures WrittenBy(o, next[o], records, open, decode) {
        assert o != last ==> next[o] == recovered[o];
      }
    }
  }

  lemma {:induction false} MapFromMeaning(recovered: Mappings, ids: seq<string>, records: seq<Record>, open: set<string>, decode: Decoder)
    requires forall id | id in ids :: id in Group(records)
    requires Explained(recovered, records, open, decode)
    requires MapFrom(recovered, ids, Group(records), open, decode).Ok?
    ensures var r := MapFrom(recovered, ids, Group(records), open, decode).value;
      && Explained(r, records, open, decode) && recovered.Keys <= r.Keys
      && (forall id, o | id in ids && Owns(records, id, o, open) :: o in r)
    decreases |ids|
  {
    if ids != [] {
      MapAttemptExplained(recovered, ids[0], records, open, decode);
      MapFromMeaning(MapAttempt(recovered, ids[0], Group(records)[ids[0]], open, decode).value, ids[1..], records, open, decode);
      assert forall id :: id in ids <==> id == ids[0] || id in ids[1..];
    }
  }

  /** The recovered keys are exactly the latest open ids of the pending attempts. */
  lemma OwnedIsMapped(records: seq<Record>, open: set<string>, decode: Decoder, id: string, o: string)
    requires OpenOrderMappings(records, open, decode).Ok? && Owns(records, id, o, open)
    ensures o in OpenOrderMappings(records, open, decode).value
  {
    var ids := SortedKeys(Group(records).Keys);
    MapFromMeaning(map[], ids, records, open, decode);
    InFlightMeaning(records, id);
    assert id in ids;
  }

  lemma MappedIsOwned(records: seq<Record>, open: set<string>, decode: Decoder, o: string) returns (id: string)
    requires OpenOrderMappings(records, open, decode).Ok? && o in OpenOrderMappings(records, open, decode).value
    ensures Owns(records, id, o, open)
    ensures OpenOrderOf(id, AttemptOf(records, id), decode) == Ok(OpenOrderMappings(records, open, decode).value[o])
  {
    var r := OpenOrderMappings(records, open, decode).value;
    MapFromMeaning(map[], SortedKeys(Group(records).Keys), records, open, decode);
    assert WrittenBy(o, r[o], records, open, decode);
    id :| Owns(records, id, o, open) && OpenOrderOf(id, AttemptOf(records, id), decode) == Ok(r[o]);
  }

  // ----- After an unlock -----

  ghost predicate NamesOpen(records: seq<Record>, id: string, o: string, open: set<string>) {
    Pending(records, id) && NamedBy(AttemptOf(records, id), o) && o in open
  }

  ghost predicate AtMostOneOpen(records: seq<Record>, open: set<string>) {
    forall id, o, o' | NamesOpen(records, id, o, open) && NamesOpen(records, id, o', open) :: o == o'
  }

  /** No two attempts name the same open order. */
  ghost predicate Unshared(records: seq<Record>, open: set<string>) {
    forall id, id', o | NamesOpen(records, id, o, open) && NamesOpen(records, id', o, open) :: id == id'
  }

  lemma OwnsNamed(records: seq<Record>, id: string, o: string, open: set<string>)
    ensures Owns(records, id, o, open) ==> NamesOpen(records, id, o, open)
    ensures NamesOpen(records, id, o, open) ==>
      var last := LastIdIn(AttemptOf(records, id), open);
      last.Some? && Owns(records, id, last.value, open)
  {
    var attempt := AttemptOf(records, id);
    if Owns(records, id, o, open) {
      var i :| 0 <= i < |attempt| && LatestAt(attempt, open, o, i);
      assert attempt[i] in attempt;
    }
    SomeOpenId(attempt, open);
    if LastIdIn(attempt, open).Some? {
      LastIsLatest(attempt, open, LastIdIn(attempt, open).value);
    }
  }

  /** After an unlock with at most one open id per pending attempt, each open order is owned. */
  lemma OpenIsOwned(records: seq<Record>, remote: RemoteState, o: string) returns (id: string)
    requires RecoverAfterCrash(records, remote).liveUnlockAllowed && AtMostOneOpen(records, remote.openOrderIds)
    requires o in remote.openOrderIds
    ensures Owns(records, id, o, remote.openOrderIds)
  {
    UnlockMeaning(records, remote);
    id :| Pending(records, id) && NamedBy(AttemptOf(records, id), o);
    assert NamesOpen(records, id, o, remote.openOrderIds);
    OwnsNamed(records, id, o, remote.openOrderIds);
    var last := LastIdIn(AttemptOf(records, id), remote.openOrderIds).value;
    OwnsNamed(records, id, last, remote.openOrderIds);
  }

  lemma OneOpenCovers(records: seq<Record>, remote: RemoteState, decode: Decoder)
    requires RecoverAfterCrash(records, remote).liveUnlockAllowed && AtMostOneOpen(records, remote.openOrderIds)
    requires OpenOrderMappings(records, remote.openOrderIds, decode).Ok?
    ensures remote.openOrderIds <= OpenOrderMappings(records, remote.openOrderIds, decode).value.Keys
  {
    forall o | o in remote.openOrderIds ensures o in OpenOrderMappings(records, remote.openOrderIds, decode).value {
      var id := OpenIsOwned(records, remote, o);
      OwnedIsMapped(records, remote.openOrderIds, decode, id, o);
    }
  }

  lemma CoverNeedsOneOpen(records: seq<Record>, open: set<string>, decode: Decoder, id: string, o: string, o': string)
    requires OpenOrderMappings(records, open, decode).Ok? && Unshared(records, open)
    requires OpenOrderMappings(records, open, decode).value.Keys == open
    requires NamesOpen(records, id, o, open) && NamesOpen(records, id, o', open)
    ensures o == o'
  {
    hide OpenOrderMappings, Pending, NamedBy, OpenOrderOf, Latest, LastIdIn, AttemptOf;
    var i := MappedIsOwned(records, open, decode, o);
    var i' := MappedIsOwned(records, open, decode, o');
    OwnsNamed(records, i, o, open);
    OwnsNamed(records, i', o', open);
    LastIsLatest(AttemptOf(records, i), open, o);
    LastIsLatest(AttemptOf(records, i'), open, o');
  }

  lemma MappedIsOpen(records: seq<Record>, open: set<string>, decode: Decoder)
    requires OpenOrderMappings(records, open, decode).Ok?
    ensures OpenOrderMappings(records, open, decode).value.Keys <= open
  {
    forall o | o in OpenOrderMappings(records, open, decode).value ensures o in open {
      var id := MappedIsOwned(records, open, decode, o);
      OwnsNamed(records, id, o, open);
    }
  }

  /**
   * After an unlock the recovered orders are the venue's open orders when each pending attempt has at most one open id
   * and, as long as attempts share no open id, only then.
   */
  lemma UnlockedMappingsCover(records: seq<Record>, remote: RemoteState, decode: Decoder)
    requires RecoverAfterCrash(records, remote).liveUnlockAllowed
    requires OpenOrderMappings(records, remote.openOrderIds, decode).Ok?
    ensures AtMostOneOpen(records, remote.openOrderIds) ==>
      OpenOrderMappings(records, remote.openOrderIds, decode).value.Keys == remote.openOrderIds
    ensures Unshared(records, remote.openOrderIds) ==>
      (OpenOrderMappings(records, remote.openOrderIds, decode).value.Keys == remote.openOrderIds
       <==> AtMostOneOpen(records, remote.openOrderIds))
  {
    MappedIsOpen(records, remote.openOrderIds, decode);
    if AtMostOneOpen(records, remote.openOrderIds) {
      OneOpenCovers(records, remote, decode);
    } else if Unshared(records, remote.openOrderIds)
      && OpenOrderMappings(records, remote.openOrderIds, decode).value.Keys == remote.openOrderIds
    {
      var id, o, o' :| NamesOpen(records, id, o, remote.openOrderIds) && NamesOpen(records, id, o', remote.openOrderIds) && o != o';
      CoverNeedsOneOpen(records, remote.openOrderIds, decode, id, o, o');
    }
  }

  lemma WriteAheadStarts(records: seq<Record>, id: string)
    requires AttemptOf(records, id) != []
    ensures FirstWriteAhead(records, id) < |records|
    ensures WriteAheadOf(AttemptOf(records, id)) == Some(records[FirstWriteAhead(records, id)])
  {
    AttemptStarts(records, id);
  }

  /** A recovered order belongs to a pending attempt, and its time and asset come from that attempt's first record. */
  lemma RecoveredFromWriteAhead(records: seq<Record>, open: set<string>, decode: Decoder, o: string)
    requires OpenOrderMappings(records, open, decode).Ok? && o in OpenOrderMappings(records, open, decode).value
    ensures var order := OpenOrderMappings(records, open, decode).value[o];
      var n := FirstWriteAhead(records, order.clientOrderId);
      && Owns(records, order.clientOrderId, o, open) && n < |records|
      && order.submittedAtMs == records[n].timestamp && decode(records[n].entry.payload) == Ok(order.assetId)
  {
    var id := MappedIsOwned(records, open, decode, o);
    WriteAheadStarts(records, id);
  }

  /** The asset of a recovered order is the one written ahead, whatever other fields its payload holds. */
  lemma RecoveredAssetIsWritten(records: seq<Record>, open: set<string>, utf8: seq<Byte> -> bool, o: string,
      assetId: seq<Byte>, rest: string)
    requires var m := OpenOrderMappings(records, open, AssetDecoder(utf8));
      m.Ok? && o in m.value
      && FirstWriteAhead(records, m.value[o].clientOrderId) < |records|
      && records[FirstWriteAhead(records, m.value[o].clientOrderId)].entry.payload == Payload(assetId, rest)
    requires utf8(assetId)
    ensures OpenOrderMappings(records, open, AssetDecoder(utf8)).value[o].assetId == assetId
  {
    RecoveredFromWriteAhead(records, open, AssetDecoder(utf8), o);
    PayloadRoundTrip(assetId, rest, utf8);
    assert AssetDecoder(utf8)(Payload(assetId, rest)) == RecoverAsset(Payload(assetId, rest), utf8);
  }

  // ----- Unresolved attempts -----

  function LastId(attempt: seq<Record>): Option<string> {
    LastIdIn(attempt, ExchangeIds(attempt))
  }

  function UnresolvedFrom(ids: seq<string>, attempts: Attempts): seq<UnresolvedAttempt>
    requires forall id | id in ids :: id in attempts && attempts[id] != []
  {
    if ids == [] then []
    else
      var attempt, rest := attempts[ids[0]], UnresolvedFrom(ids[1..], attempts);
      if InFlight(attempt) && LastId(attempt).Some? then
        [UnresolvedAttempt(attempt[0].entry.decisionId, ids[0], LastId(attempt).value, attempt[0].entry.strategyId)] + rest
      else rest
  }

  lemma AttemptsNonEmpty(records: seq<Record>)
    ensures forall id | id in Group(records) :: Group(records)[id] != []
  {
    forall id | id in Group(records) ensures Group(records)[id] != [] {
      GroupMeaning(records, id);
    }
  }

  /** `unresolved_order_attempts`. */
  function UnresolvedOrderAttempts(records: seq<Record>): seq<UnresolvedAttempt> {
    AttemptsNonEmpty(records);
    UnresolvedFrom(SortedKeys(Group(records).Keys), Group(records))
  }

  lemma {:induction false} UnresolvedListed(ids: seq<string>, attempts: Attempts, id: string)
    requires forall j | j in ids :: j in attempts && attempts[j] != []
    ensures (exists u :: u in UnresolvedFrom(ids, attempts) && u.clientOrderId == id) <==>
      id in ids && InFlight(attempts[id]) && ExchangeIds(attempts[id]) != {}
  {
    if ids != [] {
      UnresolvedListed(ids[1..], attempts, id);
      var attempt, rest := attempts[ids[0]], UnresolvedFrom(ids[1..], attempts);
      assert ExchangeIds(attempt) * ExchangeIds(attempt) == ExchangeIds(attempt);
      if InFlight(attempt) && LastId(attempt).Some? {
        var u := UnresolvedAttempt(attempt[0].entry.decisionId, ids[0], LastId(attempt).value, attempt[0].entry.strategyId);
        assert UnresolvedFrom(ids, attempts) == [u] + rest;
        assert u in UnresolvedFrom(ids, attempts);
      }
    }
  }

  /**
   * The attempts listed for a status lookup are those pending with an exchange id; once a terminal record of an attempt
   * is appended it is neither listed nor in flight, and no other attempt has changed.
   */
  lemma TerminalRecordSettles(records: seq<Record>, r: Record)
    requires r.entry.kind.Rejected? || r.entry.kind.Filled? || r.entry.kind.Cancelled?
    requires AttemptOf(records, r.entry.clientOrderId) != []
    ensures !Pending(records + [r], r.entry.clientOrderId)
    ensures forall id | id != r.entry.clientOrderId :: AttemptOf(records + [r], id) == AttemptOf(records, id)
    ensures forall u | u in UnresolvedOrderAttempts(records + [r]) :: u.clientOrderId != r.entry.clientOrderId
  {
    var after := records + [r];
    AttemptGrows(records, r, r.entry.clientOrderId);
    forall id | id != r.entry.clientOrderId ensures AttemptOf(after, id) == AttemptOf(records, id) {
      AttemptGrows(records, r, id);
    }
    AttemptsNonEmpty(after);
    InFlightMeaning(after, r.entry.clientOrderId);
    UnresolvedListed(SortedKeys(Group(after).Keys), Group(after), r.entry.clientOrderId);
  }

  lemma UnresolvedMeansPending(records: seq<Record>, id: string)
    ensures (exists u :: u in UnresolvedOrderAttempts(records) && u.clientOrderId == id) <==>
      Pending(records, id) && exists o :: NamedBy(AttemptOf(records, id), o)
  {
    AttemptsNonEmpty(records);
    InFlightMeaning(records, id);
    UnresolvedListed(SortedKeys(Group(records).Keys), Group(records), id);
    var ids := ExchangeIds(AttemptOf(records, id));
    forall o ensures NamedBy(AttemptOf(records, id), o) <==> o in ids {
      NamedIds(AttemptOf(records, id), o);
    }
  }

  lemma {:induction false} UnresolvedEntry(ids: seq<string>, attempts: Attempts, u: UnresolvedAttempt)
    requires forall j | j in ids :: j in attempts && attempts[j] != []
    requires u in UnresolvedFrom(ids, attempts)
    ensures u.clientOrderId in attempts && LastId(attempts[u.clientOrderId]) == Some(u.exchangeOrderId)
    ensures var first := attempts[u.clientOrderId][0].entry;
      u.decisionId == first.decisionId && u.strategyId == first.strategyId
  {
    if u in UnresolvedFrom(ids[1..], attempts) {
      UnresolvedEntry(ids[1..], attempts, u);
    }
  }

  /** What a listed attempt carries: the names in its first record, and the last id the venue gave to it. */
  lemma UnresolvedCarries(records: seq<Record>, u: UnresolvedAttempt)
    requires u in UnresolvedOrderAttempts(records)
    ensures var attempt := AttemptOf(records, u.clientOrderId);
      && attempt != [] && u.decisionId == attempt[0].entry.decisionId && u.strategyId == attempt[0].entry.strategyId
      && exists i | 0 <= i < |attempt| :: attempt[i].entry.exchangeOrderId == Some(u.exchangeOrderId)
          && forall j | i < j < |attempt| :: attempt[j].entry.exchangeOrderId.None?
  {
    AttemptsNonEmpty(records);
    GroupMeaning(records, u.clientOrderId);
    var attempt := AttemptOf(records, u.clientOrderId);
    UnresolvedEntry(SortedKeys(Group(records).Keys), Group(records), u);
    LastIsLatest(attempt, ExchangeIds(attempt), u.exchangeOrderId);
    var i :| 0 <= i < |attempt| && LatestAt(attempt, ExchangeIds(attempt), u.exchangeOrderId, i);
    forall j | i < j < |attempt| ensures attempt[j].entry.exchangeOrderId.None? {
      assert attempt[j] in attempt;
    }
  }
}
