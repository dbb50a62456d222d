/**
 * The handlers as a whole: what the order desk commits, and with it the update times and estimates of the orders.
 * Whoever changes the queue of active orders has all its estimates recalculated in the same commit.
 */
module OrderCounter {
  import opened Common
  import opened OrderModel
  import opened OrderEta
  import OrderDesk
  import Sorting

  function SlotOf(orders: map<nat, Order>, id: nat): int { if id in orders then orders[id].slot else 0 }

  function StatusOf(orders: map<nat, Order>, id: nat): Status { if id in orders then orders[id].status else Draft }

  function EarlierSlot(orders: map<nat, Order>): (nat, nat) -> bool
  {
    (a: nat, b: nat) => SlotOf(orders, a) <= SlotOf(orders, b)
  }

  /** The orders by slot, and those of one slot in order of creation. */
  function Visit(orders: map<nat, Order>, created: seq<nat>): (visit: seq<nat>)
    ensures |visit| == |created| && forall id :: id in visit <==> id in created
    ensures Sorting.Distinct(created) ==> Sorting.Distinct(visit)
  {
    var visit := Sorting.Sort(EarlierSlot(orders), created);
    Sorting.SortPermutes(EarlierSlot(orders), created);
    Sorting.SameMembers(visit, created);
    assert Sorting.Distinct(created) ==> Sorting.Distinct(visit) by {
      if Sorting.Distinct(created) { Sorting.SortKeepsDistinct(EarlierSlot(orders), created); }
    }
    visit
  }

  function RowOf(orders: map<nat, Order>, updatedAt: map<nat, int>, eta: map<nat, nat>, id: nat): Row {
    Row(SlotOf(orders, id), StatusOf(orders, id), if id in updatedAt then updatedAt[id] else 0,
        if id in eta then Some(eta[id]) else None)
  }

  /** The rows of the given orders. */
  function RowsOf(orders: map<nat, Order>, visit: seq<nat>, updatedAt: map<nat, int>,
      eta: map<nat, nat>): (rows: seq<Row>)
    ensures |rows| == |visit|
    ensures forall i :: 0 <= i < |rows| ==> rows[i] == RowOf(orders, updatedAt, eta, visit[i])
  {
    if visit == [] then []
    else [RowOf(orders, updatedAt, eta, visit[0])] + RowsOf(orders, visit[1..], updatedAt, eta)
  }

  function QueueOf(orders: map<nat, Order>, created: seq<nat>, updatedAt: map<nat, int>, eta: map<nat, nat>): seq<Row> {
    RowsOf(orders, Visit(orders, created), updatedAt, eta)
  }

  /** Writing one visited order's stamp and estimate writes its row and no other. */
  lemma OneRowWritten(orders: map<nat, Order>, visit: seq<nat>, updatedAt: map<nat, int>, eta: map<nat, nat>, i: nat,
      now: int, e: nat)
    requires Sorting.Distinct(visit) && i < |visit|
    ensures
      var rows := RowsOf(orders, visit, updatedAt, eta);
      RowsOf(orders, visit, updatedAt[visit[i] := now], eta[visit[i] := e]) ==
        rows[i := rows[i].(eta := Some(e), updatedAt := now)]
  {
  }

  // ---- What a handler changes of the queue ----

  lemma UpdateKeepsOrders(db: Db, env: Env, id: nat, d: DraftRequest)
    ensures DoUpdate(db, env, id, d).db.orders.Keys == db.orders.Keys
  {
  }

  lemma QuoteKeepsOrders(db: Db, env: Env, id: nat, now: int)
    ensures DoQuote(db, env, id, now).db.orders.Keys == db.orders.Keys
    ensures DoQuote(db, env, id, now).error.None? ==> id in db.orders
  {
  }

  lemma ConfirmKeepsOrders(db: Db, env: Env, id: nat, now: int)
    ensures DoConfirm(db, env, id, now).db.orders.Keys == db.orders.Keys
  {
  }

  lemma FulfillmentKeepsOrders(db: Db, id: nat, to: Status, code: string, now: int)
    ensures DoCancel(db, id, now).db.orders.Keys == db.orders.Keys
    ensures DoTransition(db, id, to, now).db.orders.Keys == db.orders.Keys
    ensures DoVerifyCode(db, id, code, now).db.orders.Keys == db.orders.Keys
  {
  }

  lemma IssueKeepsOrders(db: Db, id: nat, code: string, ttlSetting: int, now: int)
    ensures DoIssueCode(db, id, code, ttlSetting, now).db.orders.Keys == db.orders.Keys
  {
  }

  /** Stored estimates do not feed new ones. */
  lemma StoredQueueEstimatesDoNotMatter(
      orders: map<nat, Order>, created: seq<nat>, updatedAt: map<nat, int>, eta: map<nat, nat>, other: map<nat, nat>,
      now: int, slot: int, exclude: Option<nat>)
    ensures Eta(QueueOf(orders, created, updatedAt, other), now, slot, exclude) ==
      Eta(QueueOf(orders, created, updatedAt, eta), now, slot, exclude)
  {
    StoredEstimatesDoNotMatter(QueueOf(orders, created, updatedAt, other), QueueOf(orders, created, updatedAt, eta),
        now, slot, exclude);
  }

  lemma SlotsDecideVisit(orders: map<nat, Order>, other: map<nat, Order>, created: seq<nat>)
    requires forall id: nat :: SlotOf(orders, id) == SlotOf(other, id)
    ensures Visit(orders, created) == Visit(other, created)
  {
    SameComparisonSameSort(EarlierSlot(orders), EarlierSlot(other), created);
  }

  lemma {:induction false} SameComparisonSameInsert(a: (nat, nat) -> bool, b: (nat, nat) -> bool, q: seq<nat>, x: nat)
    requires forall m: nat, n: nat :: a(m, n) == b(m, n)
    ensures Sorting.Insert(a, q, x) == Sorting.Insert(b, q, x)
  {
    if q != [] && !a(q[|q| - 1], x) { SameComparisonSameInsert(a, b, q[..|q| - 1], x); }
  }

  lemma {:induction false} SameComparisonSameSort(a: (nat, nat) -> bool, b: (nat, nat) -> bool, q: seq<nat>)
    requires forall m: nat, n: nat :: a(m, n) == b(m, n)
    ensures Sorting.Sort(a, q) == Sorting.Sort(b, q)
  {
    if q != [] {
      SameComparisonSameSort(a, b, q[..|q| - 1]);
      SameComparisonSameInsert(a, b, Sorting.Sort(a, q[..|q| - 1]), q[|q| - 1]);
    }
  }

  /** One order's status and stamp change its row only. */
  lemma OneRowChanges(orders: map<nat, Order>, other: map<nat, Order>, visit: seq<nat>,
      updatedAt: map<nat, int>, eta: map<nat, nat>, id: nat, p: nat, now: int)
    requires Sorting.Distinct(visit) && p < |visit| && visit[p] == id
    requires id in orders && id in other && other == orders[id := other[id]]
    ensures
      var rows := RowsOf(orders, visit, updatedAt, eta);
      RowsOf(other, visit, updatedAt[id := now], eta) == rows[p := RowOf(other, updatedAt[id := now], eta, id)]
  {
  }

  /** An order that becomes active never lowers the estimate of another. */
  lemma JoiningNeverLowersOthers(orders: map<nat, Order>, other: map<nat, Order>, visit: seq<nat>,
      updatedAt: map<nat, int>, eta: map<nat, nat>, id: nat, now: int, i: nat)
    requires Sorting.Distinct(visit) && id in visit && i < |visit| && visit[i] != id
    requires id in orders && id in other && other == orders[id := other[id]] && !Active(orders[id].status)
      && Active(other[id].status)
    ensures Eta(RowsOf(orders, visit, updatedAt, eta), now, SlotOf(orders, visit[i]), Some(i)) <=
            Eta(RowsOf(other, visit, updatedAt[id := now], eta), now, SlotOf(orders, visit[i]), Some(i))
  {
    var p :| 0 <= p < |visit| && visit[p] == id;
    OneRowChanges(orders, other, visit, updatedAt, eta, id, p, now);
    ActivationNeverLowersOthers(RowsOf(orders, visit, updatedAt, eta), now, p,
        RowOf(other, updatedAt[id := now], eta, id), i);
  }

  /**
   * Confirming an order moves no other in the queue, and never lowers what it would be estimated at the same
   * moment.
   */
  lemma ConfirmingNeverLowersOthers(
      db: Db, env: Env, id: nat, created: seq<nat>, updatedAt: map<nat, int>, eta: map<nat, nat>, now: int, i: nat)
    requires DoConfirm(db, env, id, now).error.None? && Sorting.Distinct(created) && id in created
    requires i < |Visit(db.orders, created)| && Visit(db.orders, created)[i] != id
    ensures
      var after := DoConfirm(db, env, id, now).db.orders;
      var slot := SlotOf(db.orders, Visit(db.orders, created)[i]);
      && Visit(after, created) == Visit(db.orders, created)
      && Eta(QueueOf(db.orders, created, updatedAt, eta), now, slot, Some(i)) <=
         Eta(QueueOf(after, created, updatedAt[id := now], eta), now, slot, Some(i))
  {
    var after := DoConfirm(db, env, id, now).db.orders;
    ConfirmChanges(db, env, id, now);
    SlotsDecideVisit(db.orders, after, created);
    JoiningNeverLowersOthers(db.orders, after, Visit(db.orders, created), updatedAt, eta, id, now, i);
  }

  lemma ConfirmChanges(db: Db, env: Env, id: nat, now: int)
    requires DoConfirm(db, env, id, now).error.None?
    ensures
      var after := DoConfirm(db, env, id, now).db.orders;
      && id in db.orders && id in after && after == db.orders[id := after[id]]
      && Mutable(db.orders[id].status) && after[id].status == Confirmed && after[id].slot == db.orders[id].slot
  {
  }

  class Counter {
    const desk: OrderDesk.Desk
    var created: seq<nat>
    var updatedAt: map<nat, int>
    var eta: map<nat, nat>

    /** `created` lists the orders there are, each once. */
    ghost predicate Valid()
      reads this, desk
    {
      Sorting.Distinct(created) && forall id :: id in created <==> id in desk.orders
    }

    function Queue(): seq<Row>
      reads this, desk
    {
      QueueOf(desk.orders, created, updatedAt, eta)
    }

    constructor ()
      ensures Valid() && fresh(desk) && desk.Contents() == EMPTY
    {
      desk := new OrderDesk.Desk();
      created, updatedAt, eta := [], map[], map[];
    }

    method RecalculateVisited(visit: seq<nat>, now: int)
      requires Sorting.Distinct(visit)
      modifies `updatedAt, `eta
      ensures RowsOf(desk.orders, visit, updatedAt, eta) ==
        Recalculated(old(RowsOf(desk.orders, visit, updatedAt, eta)), now)
    {
      ghost var start := RowsOf(desk.orders, visit, updatedAt, eta);
      for i := 0 to |visit|
        invariant RowsOf(desk.orders, visit, updatedAt, eta) == Pass(start, now, i)
      {
        var rows := RowsOf(desk.orders, visit, updatedAt, eta);
        if Active(rows[i].status) {
          var minutes := CalculateEtaMinutes(rows, rows[i].slot, Some(i), now);
          OneRowWritten(desk.orders, visit, updatedAt, eta, i, now, minutes);
          eta := eta[visit[i] := minutes];
          updatedAt := updatedAt[visit[i] := now];
        }
      }
    }

    /** Visits the active orders by slot and age; each estimate sees the stamps of the visits before it. */
    method RecalculateQueueEtas(now: int)
      requires Valid()
      modifies `updatedAt, `eta
      ensures Queue() == Recalculated(old(Queue()), now)
    {
      RecalculateVisited(Visit(desk.orders, created), now);
    }

    /** After a change of order `id`: its stamp, and all estimates. */
    method TouchAndRecalculate(id: nat, now: int)
      requires Valid()
      modifies `updatedAt, `eta
      ensures Queue() == Recalculated(QueueOf(desk.orders, created, old(updatedAt)[id := now], old(eta)), now)
    {
      updatedAt := updatedAt[id := now];
      RecalculateQueueEtas(now);
    }

    method CreateOrderDraft(env: Env, id: nat, d: DraftRequest, now: int) returns (error: Option<OrderError>)
      requires Valid() && id !in desk.orders
      modifies this, desk
      ensures Valid() && Reply(desk.Contents(), error) == DoCreate(old(desk.Contents()), env, id, d)
      ensures error.None? ==>
        created == old(created) + [id] && updatedAt == old(updatedAt)[id := now] && eta == old(eta)
      ensures error.Some? ==> created == old(created) && updatedAt == old(updatedAt) && eta == old(eta)
    {
      error := desk.CreateOrderDraft(env, id, d);
      if error.None? {
        created := created + [id];
        updatedAt := updatedAt[id := now];
      }
    }

    /** A draft is stamped; it has no place in the queue yet. */
    method UpdateOrderDraft(env: Env, id: nat, d: DraftRequest, now: int) returns (error: Option<OrderError>)
      requires Valid()
      modifies this, desk
      ensures Valid() && created == old(created) && eta == old(eta)
      ensures Reply(desk.Contents(), error) == DoUpdate(old(desk.Contents()), env, id, d)
      ensures updatedAt == if error.None? then old(updatedAt)[id := now] else old(updatedAt)
    {
      ghost var before := desk.Contents();
      error := desk.UpdateOrderDraft(env, id, d);
      UpdateKeepsOrders(before, env, id, d);
      if error.None? {
        updatedAt := updatedAt[id := now];
      }
    }

    /** Stores what the order is estimated at now, itself not counted. */
    method StoreEstimate(id: nat, slot: int, now: int)
      modifies `eta
      ensures eta == old(eta)[id := Eta(Queue(), now, slot, Some(PlaceOf(Visit(desk.orders, created), id)))]
    {
      ghost var before := eta;
      var place := PlaceOf(Visit(desk.orders, created), id);
      var minutes := CalculateEtaMinutes(Queue(), slot, Some(place), now);
      eta := eta[id := minutes];
      StoredQueueEstimatesDoNotMatter(desk.orders, created, updatedAt, before, eta, now, slot, Some(place));
    }

    /** A quote estimates the order it is for and no other. */
    method QuoteOrder(env: Env, id: nat, now: int) returns (error: Option<OrderError>, next: seq<int>)
      requires Valid()
      modifies this, desk
      ensures Valid() && created == old(created)
      ensures Reply(desk.Contents(), error) == DoQuote(old(desk.Contents()), env, id, now)
      ensures error == Some(SlotFull) ==>
                && id in old(desk.orders)
                && OrderDesk.Suggested(OrderDesk.Free(old(desk.orders), desk.capacity, id), old(desk.orders)[id].slot,
                                       OrderDesk.MOST_SUGGESTIONS, OrderDesk.SCANNED_SLOTS, next)
      ensures updatedAt == if error.None? || error == Some(SlotFull) then old(updatedAt)[id := now] else old(updatedAt)
      ensures error.Some? ==> eta == old(eta)
      ensures error.None? ==>
                && id in desk.orders
                && eta == old(eta)[id := Eta(Queue(), now, desk.orders[id].slot,
                    Some(PlaceOf(Visit(desk.orders, created), id)))]
    {
      ghost var before := desk.Contents();
      error, next := desk.QuoteOrder(env, id, now);
      QuoteKeepsOrders(before, env, id, now);
      if error.None? || error == Some(SlotFull) {
        updatedAt := updatedAt[id := now];
      }
      if error.None? {
        StoreEstimate(id, desk.orders[id].slot, now);
      }
    }

    method ConfirmOrder(env: Env, id: nat, now: int) returns (error: Option<OrderError>, next: seq<int>)
      requires Valid()
      modifies this, desk
      ensures Valid() && created == old(created)
      ensures Reply(desk.Contents(), error) == DoConfirm(old(desk.Contents()), env, id, now)
      ensures error == Some(SlotFull) ==>
                && id in old(desk.orders)
                && OrderDesk.Suggested(OrderDesk.Free(old(desk.orders), desk.capacity, id), old(desk.orders)[id].slot,
                                       OrderDesk.MOST_SUGGESTIONS, OrderDesk.SCANNED_SLOTS, next)
      ensures error.None? ==>
        Queue() == Recalculated(QueueOf(desk.orders, created, old(updatedAt)[id := now], old(eta)), now)
      ensures error.Some? ==>
        eta == old(eta) && updatedAt == if error == Some(SlotFull) then old(updatedAt)[id := now] else old(updatedAt)
    {
      ghost var before := desk.Contents();
      error, next := desk.ConfirmOrder(env, id, now);
      ConfirmKeepsOrders(before, env, id, now);
      if error.None? {
        TouchAndRecalculate(id, now);
      } else if error == Some(SlotFull) {
        updatedAt := updatedAt[id := now];
      }
    }

    /** A repeated cancellation changes nothing, the queue included. */
    method CancelOrder(id: nat, now: int) returns (error: Option<OrderError>)
      requires Valid()
      modifies this, desk
      ensures Valid() && created == old(created)
      ensures Reply(desk.Contents(), error) == DoCancel(old(desk.Contents()), id, now)
      ensures error.None? && old(StatusOf(desk.orders, id)) != Cancelled ==>
                Queue() == Recalculated(QueueOf(desk.orders, created, old(updatedAt)[id := now], old(eta)), now)
      ensures error.Some? || old(StatusOf(desk.orders, id)) == Cancelled ==>
        eta == old(eta) && updatedAt == old(updatedAt)
    {
      ghost var before := desk.Contents();
      var already := StatusOf(desk.orders, id) == Cancelled;
      error := desk.CancelOrder(id, now);
      FulfillmentKeepsOrders(before, id, Draft, "", now);
      if error.None? && !already {
        TouchAndRecalculate(id, now);
      }
    }

    method TransitionOrderStatus(id: nat, target: Status, now: int) returns (error: Option<OrderError>)
      requires Valid()
      modifies this, desk
      ensures Valid() && created == old(created)
      ensures Reply(desk.Contents(), error) == DoTransition(old(desk.Contents()), id, target, now)
      ensures error.None? ==>
        Queue() == Recalculated(QueueOf(desk.orders, created, old(updatedAt)[id := now], old(eta)), now)
      ensures error.Some? ==> eta == old(eta) && updatedAt == old(updatedAt)
    {
      ghost var before := desk.Contents();
      error := desk.TransitionOrderStatus(id, target, now);
      FulfillmentKeepsOrders(before, id, target, "", now);
      if error.None? {
        TouchAndRecalculate(id, now);
      }
    }

    /** Issuing a code stamps the order and leaves the queue as it is. */
    method IssuePickupCode(id: nat, code: string, ttlSetting: int, now: int) returns (error: Option<OrderError>)
      requires Valid()
      modifies this, desk
      ensures Valid() && created == old(created) && eta == old(eta)
      ensures Reply(desk.Contents(), error) == DoIssueCode(old(desk.Contents()), id, code, ttlSetting, now)
      ensures updatedAt == if error.None? then old(updatedAt)[id := now] else old(updatedAt)
    {
      ghost var before := desk.Contents();
      error := desk.IssuePickupCode(id, code, ttlSetting, now);
      IssueKeepsOrders(before, id, code, ttlSetting, now);
      if error.None? {
        updatedAt := updatedAt[id := now];
      }
    }

    method VerifyPickupCodeAndHandoff(id: nat, code: string, now: int) returns (error: Option<OrderError>)
      requires Valid()
      modifies this, desk
      ensures Valid() && created == old(created)
      ensures Reply(desk.Contents(), error) == DoVerifyCode(old(desk.Contents()), id, code, now)
      ensures error.None? ==>
        Queue() == Recalculated(QueueOf(desk.orders, created, old(updatedAt)[id := now], old(eta)), now)
      ensures error.Some? ==> eta == old(eta) && updatedAt == old(updatedAt)
    {
      ghost var before := desk.Contents();
      error := desk.VerifyPickupCodeAndHandoff(id, code, now);
      FulfillmentKeepsOrders(before, id, Draft, code, now);
      if error.None? {
        TouchAndRecalculate(id, now);
      }
    }
  }

  /** Where the order is visited. */
  function PlaceOf(visit: seq<nat>, id: nat): (i: nat)
    ensures i <= |visit| && (i < |visit| ==> visit[i] == id) && (id in visit ==> i < |visit|)
  {
    if visit == [] || visit[0] == id then 0 else 1 + PlaceOf(visit[1..], id)
  }
}
