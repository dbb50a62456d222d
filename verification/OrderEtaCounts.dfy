/**
 * The estimate read off a table of orders: how many there are of each status and when they were updated, with the
 * weights and bounds written out; and the order in which the recalculation visits them.
 */
module OrderEtaCounts {
  import opened Common
  import opened OrderModel
  import opened OrderEta
  import OrderCounter
  import Sorting

  ghost function Chosen(ok: int -> bool, n: nat): set<int> { set i | 0 <= i < n && ok(i) }

  lemma ChosenOneMore(ok: int -> bool, n: nat)
    ensures |Chosen(ok, n + 1)| == |Chosen(ok, n)| + (if ok(n) then 1 else 0)
  {
    if ok(n) {
      assert Chosen(ok, n + 1) == Chosen(ok, n) + {n as int};
    } else {
      assert Chosen(ok, n + 1) == Chosen(ok, n);
    }
  }

  /** Row `i` is one of those counted, of the given status, and at one of the slots asked for. */
  ghost function Having(rows: seq<Row>, exclude: Option<nat>, s: Status, slots: int -> bool): int -> bool {
    i => 0 <= i < |rows| && exclude != Some(i) && rows[i].status == s && slots(rows[i].slot)
  }

  /** How many of the first `n` rows. */
  ghost function Number(rows: seq<Row>, exclude: Option<nat>, s: Status, slots: int -> bool, n: nat): nat {
    |Chosen(Having(rows, exclude, s, slots), n)|
  }

  /** The workload in tenths: a confirmed order counts 1.0, one in preparation 1.6, and so on. */
  ghost function Tenths(rows: seq<Row>, exclude: Option<nat>, slots: int -> bool, n: nat): nat {
    10 * Number(rows, exclude, Confirmed, slots, n) + 16 * Number(rows, exclude, Preparing, slots, n)
    + 4 * Number(rows, exclude, ReadyForPickup, slots, n) + 6 * Number(rows, exclude, ReadyForDispatch, slots, n)
    + 8 * Number(rows, exclude, OutForDelivery, slots, n)
  }

  lemma NumberOneMore(rows: seq<Row>, exclude: Option<nat>, s: Status, slots: int -> bool, n: nat)
    requires n < |rows|
    ensures Number(rows, exclude, s, slots, n + 1) == Number(rows, exclude, s, slots, n) +
      (if exclude != Some(n) && rows[n].status == s && slots(rows[n].slot) then 1 else 0)
  {
    ChosenOneMore(Having(rows, exclude, s, slots), n);
  }

  lemma NoneYet(rows: seq<Row>, exclude: Option<nat>, s: Status, slots: int -> bool)
    ensures Number(rows, exclude, s, slots, 0) == 0
  {
    assert Chosen(Having(rows, exclude, s, slots), 0) == {};
  }

  lemma NoTenthsYet(rows: seq<Row>, exclude: Option<nat>, slots: int -> bool)
    ensures Tenths(rows, exclude, slots, 0) == 0
  {
    NoneYet(rows, exclude, Confirmed, slots);
    NoneYet(rows, exclude, Preparing, slots);
    NoneYet(rows, exclude, ReadyForPickup, slots);
    NoneYet(rows, exclude, ReadyForDispatch, slots);
    NoneYet(rows, exclude, OutForDelivery, slots);
  }

  lemma TenthsOneMore(rows: seq<Row>, exclude: Option<nat>, slots: int -> bool, n: nat)
    requires n < |rows|
    ensures Tenths(rows, exclude, slots, n + 1) == Tenths(rows, exclude, slots, n) +
      (if exclude != Some(n) && slots(rows[n].slot) then Weight(rows[n].status) else 0)
  {
    NumberOneMore(rows, exclude, Confirmed, slots, n);
    NumberOneMore(rows, exclude, Preparing, slots, n);
    NumberOneMore(rows, exclude, ReadyForPickup, slots, n);
    NumberOneMore(rows, exclude, ReadyForDispatch, slots, n);
    NumberOneMore(rows, exclude, OutForDelivery, slots, n);
  }

  /** A count that grows row by row as the sum does is the sum. */
  lemma {:induction false} GrowsAsTheSum(m: Measure, rows: seq<Row>, exclude: Option<nat>, count: nat -> int, n: nat)
    requires n <= |rows| && count(0) == 0
    requires forall k: nat :: k < |rows| ==>
               count(k + 1) == count(k) + if exclude == Some(k) then 0 else m(rows[k])
    ensures Total(m, rows, exclude, n) == count(n)
  {
    if n > 0 { GrowsAsTheSum(m, rows, exclude, count, n - 1); }
  }

  lemma WorkloadIsCounted(m: Measure, rows: seq<Row>, exclude: Option<nat>, slots: int -> bool)
    requires forall r: Row :: m(r) == if slots(r.slot) then Weight(r.status) else 0
    ensures Over(m, rows, exclude) == Tenths(rows, exclude, slots, |rows|)
  {
    NoTenthsYet(rows, exclude, slots);
    forall k: nat | k < |rows|
      ensures Tenths(rows, exclude, slots, k + 1) ==
        Tenths(rows, exclude, slots, k) + if exclude == Some(k) then 0 else m(rows[k])
    {
      TenthsOneMore(rows, exclude, slots, k);
    }
    GrowsAsTheSum(m, rows, exclude, (k: nat) => Tenths(rows, exclude, slots, k), |rows|);
  }

  /** Row `i` is active, updated in the last 72 hours, and not the excluded one. */
  ghost function UpdatedLately(rows: seq<Row>, now: int, exclude: Option<nat>): int -> bool {
    i =>
      && 0 <= i < |rows| && exclude != Some(i) && now - rows[i].updatedAt <= 72 * 3_600_000_000
      && rows[i].status in {Confirmed, Preparing, ReadyForPickup, ReadyForDispatch, OutForDelivery}
  }

  lemma RecentIsCounted(rows: seq<Row>, now: int, exclude: Option<nat>)
    ensures Over(Recent(now), rows, exclude) == |Chosen(UpdatedLately(rows, now, exclude), |rows|)|
  {
    var lately := UpdatedLately(rows, now, exclude);
    assert Chosen(lately, 0) == {};
    forall k: nat | k < |rows|
      ensures |Chosen(lately, k + 1)| == |Chosen(lately, k)| + if exclude == Some(k) then 0 else Recent(now)(rows[k])
    {
      ChosenOneMore(lately, k);
    }
    GrowsAsTheSum(Recent(now), rows, exclude, (k: nat) => |Chosen(lately, k)|, |rows|);
  }

  /** `q` is `a` hundredths, or microseconds as minutes, rounded up. */
  ghost predicate HundredthsUp(q: int, a: int) { 100 * q >= a && 100 * (q - 1) < a }

  ghost predicate MinutesUp(q: int, a: int) { 60_000_000 * q >= a && 60_000_000 * (q - 1) < a }

  lemma CeilOfHundredths(a: nat, q: int)
    requires HundredthsUp(q, a)
    ensures CeilDiv(a, 100) == q
  {
  }

  lemma CeilOfMinutes(slot: int, now: int, away: int)
    requires if slot <= now then away == 0 else MinutesUp(away, slot - now)
    ensures MinutesUntil(slot, now) == away
  {
  }

  /**
   * The estimate: eight minutes, 2.7 for each unit of workload at slots still to come, 2.2 for each at slots no later
   * than the order's, one for each order updated lately up to eighteen, and the time to the slot up to twenty.
   */
  lemma EtaFromCounts(rows: seq<Row>, now: int, slot: int, exclude: Option<nat>, q: int, b: int, away: int)
    requires HundredthsUp(q, 27 * Tenths(rows, exclude, s => s >= now, |rows|))
    requires HundredthsUp(b, 22 * Tenths(rows, exclude, s => now <= s <= slot, |rows|))
    requires if slot <= now then away == 0 else MinutesUp(away, slot - now)
    ensures Eta(rows, now, slot, exclude) ==
      8 + q + b + Min(18, |Chosen(UpdatedLately(rows, now, exclude), |rows|)|) + Min(20, away)
  {
    WorkloadIsCounted(Queued(now), rows, exclude, s => s >= now);
    WorkloadIsCounted(Backlog(now, slot), rows, exclude, s => now <= s <= slot);
    RecentIsCounted(rows, now, exclude);
    CeilOfHundredths(27 * Over(Queued(now), rows, exclude), q);
    CeilOfHundredths(22 * Over(Backlog(now, slot), rows, exclude), b);
    CeilOfMinutes(slot, now, away);
  }

  /** The visit goes by slot, and within a slot by age. */
  lemma VisitBySlotThenAge(orders: map<nat, Order>, created: seq<nat>)
    requires forall id :: id in created ==> id in orders
    ensures
      var visit := OrderCounter.Visit(orders, created);
      && multiset(visit) == multiset(created)
      && (forall i, j :: 0 <= i < j < |visit| ==>
            visit[i] in orders && visit[j] in orders && orders[visit[i]].slot <= orders[visit[j]].slot)
      && (forall i, j :: 0 <= i < j < |created| && orders[created[i]].slot == orders[created[j]].slot ==>
            Sorting.Precedes(visit, created[i], created[j]))
  {
    var le := OrderCounter.EarlierSlot(orders);
    Sorting.SortOrders(le, created);
    Sorting.SortPermutes(le, created);
    forall i, j | 0 <= i < j < |created| && orders[created[i]].slot == orders[created[j]].slot
      ensures Sorting.Precedes(OrderCounter.Visit(orders, created), created[i], created[j])
    {
      Sorting.SortKeepsPairs(le, created, i, j);
    }
  }
}
