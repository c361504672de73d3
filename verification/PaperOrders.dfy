/** Submitting, cancelling and pruning orders: reservations are exact sums, and the invariant is kept. */
module PaperOrders {
  import opened Prelude
  import opened Ordered
  import opened Sums
  import opened FixedPoint
  import opened Book
  import opened PaperMath
  import opened PaperCore
  import opened PaperInvariant

  // ----- Orders that only lose claims -----

  /** Same terms and fills; the order may have been closed or stamped, never reopened. */
  ghost predicate Relaxed(o: Order, o': Order) {
    && o'.intent == o.intent && o'.clientOrderId == o.clientOrderId && o'.feesPaid == o.feesPaid
    && o'.filledSize == o.filledSize && o'.remainingSize == o.remainingSize
    && (IsOpen(o'.status) ==> IsOpen(o.status))
  }

  ghost predicate AllRelaxed(orders: map<string, Order>, orders': map<string, Order>) {
    orders'.Keys == orders.Keys && forall id | id in orders :: Relaxed(orders[id], orders'[id])
  }

  lemma RelaxedKeepsInv(e: Engine, orders': map<string, Order>, k: nat)
    requires Inv(e, k) && AllRelaxed(e.orders, orders')
    ensures Inv(e.(orders := orders'), k)
  {
    var d := e.(orders := orders');
    OthersReserveNonNegative(e);
    MapSumMonotone(orders', e.orders, OpenBuyReserve(e.feeBps));
    forall a ensures OpenSells(d, a) <= Held(d, a) {
      MapSumMonotone(orders', e.orders, OpenSellSize(a));
      assert OpenSells(e, a) <= Held(e, a);
    }
  }

  // ----- Cancelling -----

  function ClosedIf(o: Order, closed: bool): Order {
    if closed then o.(status := Cancelled) else o
  }

  lemma {:induction false} CancelIdsMeaning(orders: map<string, Order>, ids: seq<string>)
    ensures var after := CancelIds(orders, ids);
      && after.Keys == orders.Keys
      && forall id | id in orders :: after[id] == ClosedIf(orders[id], id in ids && IsOpen(orders[id].status))
    decreases |ids|
  {
    if ids != [] {
      CancelIdsMeaning(CancelOrder(orders, ids[0]), ids[1..]);
      assert ids == [ids[0]] + ids[1..];
    }
  }

  lemma CancelKeepsInv(e: Engine, ids: seq<string>, k: nat)
    requires Inv(e, k)
    ensures Inv(e.(orders := CancelIds(e.orders, ids)), k)
  {
    CancelIdsMeaning(e.orders, ids);
    RelaxedKeepsInv(e, CancelIds(e.orders, ids), k);
  }

  lemma {:induction false} SelectedMeaning(ids: seq<string>, orders: map<string, Order>, chosen: Order -> bool)
    requires forall id | id in ids :: id in orders
    ensures forall id :: id in Selected(ids, orders, chosen) <==> id in ids && chosen(orders[id])
  {
    if ids != [] {
      SelectedMeaning(ids[1..], orders, chosen);
      assert ids == [ids[0]] + ids[1..];
    }
  }

  /** A bulk cancellation closes exactly the orders it selects, touches no other, and lists the ids it closed. */
  lemma CancelWhereMeaning(e: Engine, chosen: Order -> bool)
    requires forall o: Order :: chosen(o) ==> IsOpen(o.status)
    ensures var (d, ids) := CancelWhere(e, chosen);
      && d.orders.Keys == e.orders.Keys
      && (forall id :: id in ids <==> id in e.orders && chosen(e.orders[id]))
      && (forall id | id in e.orders :: d.orders[id] == ClosedIf(e.orders[id], chosen(e.orders[id])))
  {
    SelectedMeaning(SortedKeys(e.orders.Keys), e.orders, chosen);
    CancelIdsMeaning(e.orders, CancelWhere(e, chosen).1);
  }

  /** Pruning forgets closed orders only: no reservation changes. */
  lemma PruneKeepsInv(e: Engine, k: nat)
    requires Inv(e, k)
    ensures Inv(Pruned(e), k)
    ensures forall id :: id in Pruned(e).orders <==> id in e.orders && IsOpen(e.orders[id].status)
  {
    var d := Pruned(e);
    var keep := set id | id in e.orders && IsOpen(e.orders[id].status);
    assert d.orders == map id | id in e.orders && id in keep :: e.orders[id];
    MapSumRestrict(e.orders, keep, OpenBuyReserve(e.feeBps));
    forall a ensures OpenSells(d, a) <= Held(d, a) {
      MapSumRestrict(e.orders, keep, OpenSellSize(a));
      assert OpenSells(e, a) <= Held(e, a);
    }
  }

  // ----- Reservations -----

  lemma ReservedCashStep(ids: seq<string>, orders: map<string, Order>, feeBps: nat, total: int)
    requires ids != [] && forall id | id in ids :: id in orders
    requires ReservedCash(ids, orders, feeBps, total).Ok?
    ensures ReservedCash(ids, orders, feeBps, total)
      == ReservedCash(ids[1..], orders, feeBps, total + OpenBuyReserve(feeBps)(orders[ids[0]]))
  {
    var o := orders[ids[0]];
    if IsOpen(o.status) && o.intent.side.Buy? {
      BuyReserveIsReserve(o.intent.limitPrice, o.remainingSize, feeBps);
    }
  }

  lemma {:induction false} ReservedCashIsSum(ids: seq<string>, orders: map<string, Order>, feeBps: nat, total: int)
    requires forall id | id in ids :: id in orders
    requires ReservedCash(ids, orders, feeBps, total).Ok?
    ensures ReservedCash(ids, orders, feeBps, total).value == total + KeySum(ids, orders, OpenBuyReserve(feeBps))
    decreases |ids|
  {
    if ids != [] {
      ReservedCashStep(ids, orders, feeBps, total);
      ReservedCashIsSum(ids[1..], orders, feeBps, total + OpenBuyReserve(feeBps)(orders[ids[0]]));
    }
  }

  lemma {:induction false} ReservedPositionIsSum(ids: seq<string>, orders: map<string, Order>, assetId: string, total: int)
    requires forall id | id in ids :: id in orders
    requires ReservedPosition(ids, orders, assetId, total).Ok?
    ensures ReservedPosition(ids, orders, assetId, total).value == total + KeySum(ids, orders, OpenSellSize(assetId))
    decreases |ids|
  {
    if ids != [] {
      ReservedPositionIsSum(ids[1..], orders, assetId, total + OpenSellSize(assetId)(orders[ids[0]]));
    }
  }

  /** Available cash is cash less the exact reservations; short of overflow it is refused exactly when they exceed it. */
  lemma AvailableCashMeaning(e: Engine)
    ensures AvailableCash(e).Ok? ==> AvailableCash(e).value == e.cash - TotalReserved(e) >= 0
    ensures ReservedCash(SortedKeys(e.orders.Keys), e.orders, e.feeBps, 0).Ok? && InRange(e.cash - TotalReserved(e)) ==>
      (AvailableCash(e).Ok? <==> TotalReserved(e) <= e.cash)
  {
    if ReservedCash(SortedKeys(e.orders.Keys), e.orders, e.feeBps, 0).Ok? {
      SortedKeysDistinct(e.orders.Keys);
      ReservedCashIsSum(SortedKeys(e.orders.Keys), e.orders, e.feeBps, 0);
      KeySumIsMapSum(SortedKeys(e.orders.Keys), e.orders, e.orders, OpenBuyReserve(e.feeBps));
    }
  }

  /** Available position is the position less the open sells; once their sum exists it is refused exactly when they exceed it. */
  lemma AvailablePositionMeaning(e: Engine, assetId: string)
    ensures AvailablePosition(e, assetId).Ok? ==>
      AvailablePosition(e, assetId).value == Held(e, assetId) - OpenSells(e, assetId) >= 0
    ensures ReservedPosition(SortedKeys(e.orders.Keys), e.orders, assetId, 0).Ok? && InRange(Held(e, assetId) - OpenSells(e, assetId)) ==>
      (AvailablePosition(e, assetId).Ok? <==> OpenSells(e, assetId) <= Held(e, assetId))
  {
    var reserved := ReservedPosition(SortedKeys(e.orders.Keys), e.orders, assetId, 0);
    if reserved.Ok? {
      SortedKeysDistinct(e.orders.Keys);
      ReservedPositionIsSum(SortedKeys(e.orders.Keys), e.orders, assetId, 0);
      KeySumIsMapSum(SortedKeys(e.orders.Keys), e.orders, e.orders, OpenSellSize(assetId));
    }
  }

  /** Under the invariant the free position always exists once the sum of the open sells does. */
  lemma SellsAvailable(e: Engine, assetId: string, k: nat)
    requires Inv(e, k) && ReservedPosition(SortedKeys(e.orders.Keys), e.orders, assetId, 0).Ok?
    ensures AvailablePosition(e, assetId).Ok?
  {
    hide MapSum, ReservedPosition;
    OthersReserveNonNegative(e);
    MapSumNonNegative(e.orders, OpenSellSize(assetId));
    AvailablePositionMeaning(e, assetId);
    assert OpenSells(e, assetId) <= Held(e, assetId);
    assert assetId in e.positions ==> PositionOk(assetId, e.positions[assetId]);
  }

  // ----- Submitting -----

  /** What acceptance has checked. */
  lemma SubmitCovered(e: Engine, intent: Intent, id: string, now: nat)
    requires Submit(e, intent, id, now).Ok?
    ensures id !in e.orders && Submit(e, intent, id, now).value == e.(orders := e.orders[id := RestingOrder(intent, id, now, None)])
    ensures intent.side.Buy? ==> TotalReserved(e) + Reserve(intent.limitPrice, intent.size, e.feeBps) <= e.cash
    ensures intent.side.Sell? ==> OpenSells(e, intent.assetId) + intent.size <= Held(e, intent.assetId)
  {
    BuyReserveIsReserve(intent.limitPrice, intent.size, e.feeBps);
    if intent.side.Buy? {
      AvailableCashMeaning(e);
    } else {
      AvailablePositionMeaning(e, intent.assetId);
    }
  }

  /** An order as it is accepted: nothing filled or paid, seen by no book and no print, and as old as its submission. */
  ghost predicate Accepted(o: Order, intent: Intent, id: string, now: nat) {
    && o.clientOrderId == id && o.intent == intent && o.status == Acknowledged && o.submittedAt == Some(now)
    && o.filledSize == 0 && o.remainingSize == intent.size && o.feesPaid == 0
    && o.lastBookVersion == None && o.lastTradeTimestamp == None
  }

  /** An accepted order is fully covered: a buy by free cash, a sell by free position. */
  lemma SubmitKeepsInv(e: Engine, intent: Intent, id: string, now: nat, k: nat)
    requires Inv(e, k) && IntentOk(intent) && Submit(e, intent, id, now).Ok?
    ensures var d := Submit(e, intent, id, now).value;
      && Inv(d, k)
      && (intent.side.Buy? ==> TotalReserved(d) <= d.cash)
      && id !in e.orders && d == e.(orders := e.orders[id := RestingOrder(intent, id, now, None)])
      && Accepted(d.orders[id], intent, id, now)
  {
    var o := RestingOrder(intent, id, now, None);
    SubmitCovered(e, intent, id, now);
    var d := e.(orders := e.orders[id := o]);
    MapSumUpdate(e.orders, id, o, OpenBuyReserve(e.feeBps));
    forall a ensures OpenSells(d, a) <= Held(d, a) {
      MapSumUpdate(e.orders, id, o, OpenSellSize(a));
      assert OpenSells(e, a) <= Held(e, a);
    }
  }

  /**
   * Short of overflow a buy is accepted exactly when its id is new, it has not expired, and free cash covers its reservation:
   * never while the reservations already exceed cash.
   */
  lemma BuyAccepted(e: Engine, intent: Intent, id: string, now: nat, k: nat)
    requires Inv(e, k) && IntentOk(intent) && intent.side.Buy? && BuyReserve(intent.limitPrice, intent.size, e.feeBps).Ok?
    requires ReservedCash(SortedKeys(e.orders.Keys), e.orders, e.feeBps, 0).Ok? && InRange(e.cash - TotalReserved(e))
    ensures Submit(e, intent, id, now).Ok? <==>
      id !in e.orders && intent.expiresAt > now
      && TotalReserved(e) + Reserve(intent.limitPrice, intent.size, e.feeBps) <= e.cash
  {
    hide Reserve, MapSum, ReservedCash;
    BuyReserveIsReserve(intent.limitPrice, intent.size, e.feeBps);
    ReserveNonNegative(intent.limitPrice, intent.size, e.feeBps);
    AvailableCashMeaning(e);
  }

  /** A sell is accepted exactly when its id is new, it has not expired, and the unreserved position covers it. */
  lemma SellAccepted(e: Engine, intent: Intent, id: string, now: nat, k: nat)
    requires Inv(e, k) && IntentOk(intent) && intent.side.Sell? && BuyReserve(intent.limitPrice, intent.size, e.feeBps).Ok?
    requires ReservedPosition(SortedKeys(e.orders.Keys), e.orders, intent.assetId, 0).Ok?
    ensures Submit(e, intent, id, now).Ok? <==>
      id !in e.orders && intent.expiresAt > now
      && OpenSells(e, intent.assetId) + intent.size <= Held(e, intent.assetId)
  {
    hide MapSum, ReservedPosition;
    AvailablePositionMeaning(e, intent.assetId);
    SellsAvailable(e, intent.assetId, k);
  }
}
