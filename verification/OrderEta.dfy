/**
 * Estimated minutes to completion, and the pass that recalculates them for every active order. The pass writes update
 * times that its own later estimates count, so one pass need not settle; this module says what two passes do and
 * exactly when one is enough. Workload weights are tenths, times are microseconds, the clock stands still during a
 * pass.
 */
module OrderEta {
  import opened Common
  import opened OrderModel

  /** One order of the scope; rows are in the order the recalculation visits them, by slot and then by age. */
  datatype Row = Row(slot: int, status: Status, updatedAt: int, eta: Option<nat>)

  predicate Active(s: Status)
  {
    s == Confirmed || s == Preparing || s == ReadyForPickup || s == ReadyForDispatch || s == OutForDelivery
  }

  /** Tenths of a unit of workload. */
  function Weight(s: Status): nat {
    match s
    case Confirmed => 10
    case Preparing => 16
    case ReadyForPickup => 4
    case ReadyForDispatch => 6
    case OutForDelivery => 8
    case _ => 0
  }

  type Measure = Row -> nat

  function Workload(): Measure { (r: Row) => Weight(r.status) }

  function Queued(now: int): Measure { (r: Row) => if r.slot >= now then Weight(r.status) else 0 }

  function Backlog(now: int, until: int): Measure { (r: Row) => if now <= r.slot <= until then Weight(r.status) else 0 }

  function Recent(now: int): Measure
  {
    (r: Row) => if Active(r.status) && r.updatedAt >= now - 72 * 3_600_000_000 then 1 else 0
  }

  function Present(): Measure { (r: Row) => if Active(r.status) then 1 else 0 }

  /** The sum over the first `n` rows, without the excluded one. */
  function Total(m: Measure, rows: seq<Row>, exclude: Option<nat>, n: nat): nat
    requires n <= |rows|
  {
    if n == 0 then 0 else Total(m, rows, exclude, n - 1) + (if exclude == Some(n - 1) then 0 else m(rows[n - 1]))
  }

  function Over(m: Measure, rows: seq<Row>, exclude: Option<nat>): nat { Total(m, rows, exclude, |rows|) }

  /** `a / b`, rounded up. */
  function CeilDiv(a: nat, b: nat): nat
    requires b > 0
  {
    (a + b - 1) / b
  }

  function MinutesUntil(slot: int, now: int): nat { if slot <= now then 0 else CeilDiv(slot - now, 60_000_000) }

  function Estimate(queue: nat, backlog: nat, recent: nat, minutes: nat): nat {
    8 + CeilDiv(27 * queue, 100) + CeilDiv(22 * backlog, 100) + Min(18, recent) + Min(20, minutes)
  }

  function Eta(rows: seq<Row>, now: int, slot: int, exclude: Option<nat>): nat {
    Estimate(Over(Queued(now), rows, exclude), Over(Backlog(now, slot), rows, exclude),
        Over(Recent(now), rows, exclude), MinutesUntil(slot, now))
  }

  /** What the recalculation writes into row `i`. */
  function Refreshed(rows: seq<Row>, now: int, i: nat): Row
    requires i < |rows|
  {
    if Active(rows[i].status) then rows[i].(eta := Some(Eta(rows, now, rows[i].slot, Some(i))), updatedAt := now)
    else rows[i]
  }

  /** The first `n` visits of the recalculation; each sees what the ones before it wrote. */
  function Pass(rows: seq<Row>, now: int, n: nat): (r: seq<Row>)
    requires n <= |rows|
    ensures |r| == |rows|
  {
    if n == 0 then rows else var before := Pass(rows, now, n - 1); before[n - 1 := Refreshed(before, now, n - 1)]
  }

  function Recalculated(rows: seq<Row>, now: int): seq<Row> { Pass(rows, now, |rows|) }

  // ---- Comparing sums ----

  lemma {:induction false} TotalMonotone(a: Measure, b: Measure, rows: seq<Row>, other: seq<Row>, exclude: Option<nat>,
      n: nat)
    requires n <= |rows| == |other|
    requires forall i :: 0 <= i < n && exclude != Some(i) ==> a(rows[i]) <= b(other[i])
    ensures Total(a, rows, exclude, n) <= Total(b, other, exclude, n)
  {
    if n > 0 { TotalMonotone(a, b, rows, other, exclude, n - 1); }
  }

  lemma {:induction false} TotalStrict(m: Measure, rows: seq<Row>, other: seq<Row>, exclude: Option<nat>, n: nat,
      k: nat)
    requires n <= |rows| == |other| && k < n && exclude != Some(k) && m(rows[k]) < m(other[k])
    requires forall i :: 0 <= i < n && exclude != Some(i) ==> m(rows[i]) <= m(other[i])
    ensures Total(m, rows, exclude, n) < Total(m, other, exclude, n)
  {
    if k == n - 1 {
      TotalMonotone(m, m, rows, other, exclude, n - 1);
    } else {
      TotalStrict(m, rows, other, exclude, n - 1, k);
    }
  }

  /** Leaving a row out takes off exactly what it measures. */
  lemma {:induction false} Leaving(m: Measure, rows: seq<Row>, i: nat, n: nat)
    requires i < |rows| && n <= |rows|
    ensures Total(m, rows, Some(i), n) + (if i < n then m(rows[i]) else 0) == Total(m, rows, None, n)
  {
    if n > 0 { Leaving(m, rows, i, n - 1); }
  }

  lemma EstimateMonotone(queue: nat, backlog: nat, recent: nat, minutes: nat, queue': nat, backlog': nat, recent': nat)
    requires queue <= queue' && backlog <= backlog' && recent <= recent'
    ensures Estimate(queue, backlog, recent, minutes) <= Estimate(queue', backlog', recent', minutes)
  {
  }

  // ---- One estimate ----

  /** The backlog before a slot never exceeds the queue, nor the queue the whole workload; so estimates are bounded. */
  lemma EtaBounds(rows: seq<Row>, now: int, slot: int, exclude: Option<nat>)
    ensures Over(Backlog(now, slot), rows, exclude) <= Over(Queued(now), rows, exclude)
    ensures Over(Queued(now), rows, exclude) <= Over(Workload(), rows, exclude)
    ensures
      var w := Over(Workload(), rows, exclude);
      8 <= Eta(rows, now, slot, exclude) <= 46 + CeilDiv(27 * w, 100) + CeilDiv(22 * w, 100)
  {
    TotalMonotone(Backlog(now, slot), Queued(now), rows, rows, exclude, |rows|);
    TotalMonotone(Queued(now), Workload(), rows, rows, exclude, |rows|);
  }

  /** Row by row, apart from the excluded one: as much workload at the same slot, and no less recent. */
  ghost predicate NoLighter(rows: seq<Row>, other: seq<Row>, now: int, exclude: Option<nat>) {
    && |rows| == |other|
    && forall i :: 0 <= i < |rows| && exclude != Some(i) ==>
         && (Active(rows[i].status) ==> other[i].slot == rows[i].slot && other[i].status == rows[i].status)
         && Recent(now)(rows[i]) <= Recent(now)(other[i])
  }

  lemma EtaMonotone(rows: seq<Row>, other: seq<Row>, now: int, slot: int, exclude: Option<nat>)
    requires NoLighter(rows, other, now, exclude)
    ensures Eta(rows, now, slot, exclude) <= Eta(other, now, slot, exclude)
  {
    TotalMonotone(Queued(now), Queued(now), rows, other, exclude, |rows|);
    TotalMonotone(Backlog(now, slot), Backlog(now, slot), rows, other, exclude, |rows|);
    TotalMonotone(Recent(now), Recent(now), rows, other, exclude, |rows|);
    EstimateMonotone(Over(Queued(now), rows, exclude), Over(Backlog(now, slot), rows, exclude),
        Over(Recent(now), rows, exclude), MinutesUntil(slot, now),
        Over(Queued(now), other, exclude), Over(Backlog(now, slot), other, exclude),
        Over(Recent(now), other, exclude));
  }

  /** An order that becomes active, at whatever slot, never lowers another order's estimate. */
  lemma ActivationNeverLowersOthers(rows: seq<Row>, now: int, p: nat, r: Row, i: nat)
    requires p < |rows| && i < |rows| && i != p && !Active(rows[p].status) && Active(r.status)
    ensures Eta(rows, now, rows[i].slot, Some(i)) <= Eta(rows[p := r], now, rows[i].slot, Some(i))
  {
    EtaMonotone(rows, rows[p := r], now, rows[i].slot, Some(i));
  }

  // ---- The pass ----

  /** The rows once the first `n` active ones carry the time of the pass. */
  function StampedTo(rows: seq<Row>, now: int, n: nat): (r: seq<Row>)
    requires n <= |rows|
    ensures |r| == |rows|
    ensures forall i ::
      0 <= i < |r| ==> r[i] == if i < n && Active(rows[i].status) then rows[i].(updatedAt := now) else rows[i]
  {
    if n == 0 then rows
    else
      var before := StampedTo(rows, now, n - 1);
      if Active(rows[n - 1].status) then before[n - 1 := rows[n - 1].(updatedAt := now)] else before
  }

  /** Rows that agree but for their stored estimates. */
  ghost predicate SameButEta(a: seq<Row>, b: seq<Row>) {
    |a| == |b| && forall i ::
        0 <= i < |a| ==> a[i].slot == b[i].slot && a[i].status == b[i].status && a[i].updatedAt == b[i].updatedAt
  }

  /** Stored estimates do not feed later ones; only update times do. */
  lemma StoredEstimatesDoNotMatter(a: seq<Row>, b: seq<Row>, now: int, slot: int, exclude: Option<nat>)
    requires SameButEta(a, b)
    ensures Eta(a, now, slot, exclude) == Eta(b, now, slot, exclude)
  {
    EtaMonotone(a, b, now, slot, exclude);
    EtaMonotone(b, a, now, slot, exclude);
  }

  /**
   * What a pass leaves in row `i`: the estimate made when the active rows before it, and no others, had been
   * stamped.
   */
  function Settled(rows: seq<Row>, now: int, i: nat): Row
    requires i < |rows|
  {
    if Active(rows[i].status)
    then rows[i].(eta := Some(Eta(StampedTo(rows, now, i), now, rows[i].slot, Some(i))), updatedAt := now)
    else rows[i]
  }

  lemma VisitSettles(rows: seq<Row>, before: seq<Row>, now: int, i: nat)
    requires i < |rows| == |before| && before[i] == rows[i] && SameButEta(before, StampedTo(rows, now, i))
    ensures Refreshed(before, now, i) == Settled(rows, now, i)
  {
    StoredEstimatesDoNotMatter(before, StampedTo(rows, now, i), now, rows[i].slot, Some(i));
  }

  lemma {:induction false} PassSettles(rows: seq<Row>, now: int, n: nat)
    requires n <= |rows|
    ensures forall i :: 0 <= i < |rows| ==> Pass(rows, now, n)[i] == if i < n then Settled(rows, now, i) else rows[i]
  {
    if n > 0 {
      PassSettles(rows, now, n - 1);
      VisitSettles(rows, Pass(rows, now, n - 1), now, n - 1);
    }
  }

  /** A pass stamps every active row and changes no slot, no status and no inactive row. */
  lemma PassStampsAll(rows: seq<Row>, now: int)
    ensures SameButEta(Recalculated(rows, now), StampedTo(rows, now, |rows|))
    ensures forall i :: 0 <= i < |rows| && !Active(rows[i].status) ==> Recalculated(rows, now)[i] == rows[i]
  {
    PassSettles(rows, now, |rows|);
  }

  /** Once all active rows are stamped, the estimate of row `i` no longer depends on the order of visits. */
  function Final(rows: seq<Row>, now: int, i: nat): nat
    requires i < |rows|
  {
    Eta(StampedTo(rows, now, |rows|), now, rows[i].slot, Some(i))
  }

  lemma SecondPassIsFinal(rows: seq<Row>, now: int, i: nat)
    requires i < |rows| && Active(rows[i].status)
    ensures Recalculated(Recalculated(rows, now), now)[i].eta == Some(Final(rows, now, i))
  {
    var first := Recalculated(rows, now);
    PassStampsAll(rows, now);
    PassSettles(first, now, |rows|);
    StoredEstimatesDoNotMatter(StampedTo(first, now, i), StampedTo(rows, now, |rows|), now, rows[i].slot, Some(i));
  }

  /** A second pass can only raise estimates. */
  lemma SecondPassNeverLowers(rows: seq<Row>, now: int, i: nat)
    requires i < |rows|
    ensures
      var once, twice := Recalculated(rows, now)[i].eta, Recalculated(Recalculated(rows, now), now)[i].eta;
      once == twice || (once.Some? && twice.Some? && once.value <= twice.value)
  {
    PassSettles(rows, now, |rows|);
    if Active(rows[i].status) {
      SecondPassIsFinal(rows, now, i);
      EtaMonotone(StampedTo(rows, now, i), StampedTo(rows, now, |rows|), now, rows[i].slot, Some(i));
    } else {
      PassSettles(Recalculated(rows, now), now, |rows|);
    }
  }

  /** After two passes nothing moves any more. */
  lemma TwoPassesSettle(rows: seq<Row>, now: int)
    ensures var second := Recalculated(Recalculated(rows, now), now); Recalculated(second, now) == second
  {
    var first := Recalculated(rows, now);
    var second := Recalculated(first, now);
    PassSettles(first, now, |rows|);
    PassSettles(second, now, |rows|);
    PassStampsAll(rows, now);
    PassStampsAll(first, now);
    forall i | 0 <= i < |rows|
      ensures Recalculated(second, now)[i] == second[i]
    {
      if Active(rows[i].status) {
        StoredEstimatesDoNotMatter(StampedTo(second, now, i), StampedTo(first, now, i), now, rows[i].slot, Some(i));
      }
    }
  }

  // ---- When one pass is enough ----

  ghost predicate FirstActive(rows: seq<Row>, i: nat) {
    i < |rows| && Active(rows[i].status) && forall j :: 0 <= j < i ==> !Active(rows[j].status)
  }

  /** Row by row, stamping only adds to what counts as recent, up to all active rows. */
  lemma StampingAddsRecent(rows: seq<Row>, now: int, k: nat, exclude: Option<nat>)
    requires k <= |rows|
    ensures Over(Recent(now), rows, exclude) <= Over(Recent(now), StampedTo(rows, now, k), exclude)
    ensures Over(Recent(now), StampedTo(rows, now, k), exclude) <= Over(Present(), rows, exclude)
    ensures Over(Recent(now), StampedTo(rows, now, |rows|), exclude) == Over(Present(), rows, exclude)
  {
    TotalMonotone(Recent(now), Recent(now), rows, StampedTo(rows, now, k), exclude, |rows|);
    TotalMonotone(Recent(now), Present(), StampedTo(rows, now, k), rows, exclude, |rows|);
    TotalMonotone(Recent(now), Present(), StampedTo(rows, now, |rows|), rows, exclude, |rows|);
    TotalMonotone(Present(), Recent(now), rows, StampedTo(rows, now, |rows|), exclude, |rows|);
  }

  /** Stamping moves no workload. */
  lemma StampingMovesNoLoad(rows: seq<Row>, now: int, k: nat, slot: int, exclude: Option<nat>)
    requires k <= |rows|
    ensures Over(Queued(now), StampedTo(rows, now, k), exclude) == Over(Queued(now), rows, exclude)
    ensures Over(Backlog(now, slot), StampedTo(rows, now, k), exclude) == Over(Backlog(now, slot), rows, exclude)
  {
    var stamped := StampedTo(rows, now, k);
    TotalMonotone(Queued(now), Queued(now), rows, stamped, exclude, |rows|);
    TotalMonotone(Queued(now), Queued(now), stamped, rows, exclude, |rows|);
    TotalMonotone(Backlog(now, slot), Backlog(now, slot), rows, stamped, exclude, |rows|);
    TotalMonotone(Backlog(now, slot), Backlog(now, slot), stamped, rows, exclude, |rows|);
  }

  lemma OnlyVolumeDiffers(queue: nat, backlog: nat, minutes: nat, a: nat, b: nat)
    ensures Estimate(queue, backlog, a, minutes) == Estimate(queue, backlog, b, minutes) <==> Min(18, a) == Min(18, b)
  {
  }

  /**
   * A row's first estimate is final exactly when the recent orders it counted make as large a volume as all active
   * ones.
   */
  lemma FinalAtOnce(rows: seq<Row>, now: int, i: nat)
    requires i < |rows| && Active(rows[i].status)
    ensures Recalculated(rows, now)[i].eta == Some(Final(rows, now, i)) <==>
            Min(18, Over(Recent(now), StampedTo(rows, now, i), Some(i))) == Min(18, Over(Present(), rows, Some(i)))
  {
    var slot := rows[i].slot;
    PassSettles(rows, now, |rows|);
    StampingAddsRecent(rows, now, i, Some(i));
    StampingMovesNoLoad(rows, now, i, slot, Some(i));
    StampingMovesNoLoad(rows, now, |rows|, slot, Some(i));
    OnlyVolumeDiffers(Over(Queued(now), rows, Some(i)), Over(Backlog(now, slot), rows, Some(i)),
        MinutesUntil(slot, now),
                      Over(Recent(now), StampedTo(rows, now, i), Some(i)), Over(Present(), rows, Some(i)));
  }

  /** The first active row counts the fewest: what a later one counts is at least as much. */
  lemma FirstCountsFewest(rows: seq<Row>, now: int, first: nat, i: nat)
    requires FirstActive(rows, first) && i < |rows| && Active(rows[i].status)
    ensures Over(Recent(now), rows, Some(first)) <= Over(Recent(now), StampedTo(rows, now, i), Some(i))
  {
    var m := Recent(now);
    Leaving(m, rows, first, |rows|);
    Leaving(m, StampedTo(rows, now, i), i, |rows|);
    if i != first {
      Leaving(m, rows, i, |rows|);
      if m(rows[first]) == 0 {
        TotalStrict(m, rows, StampedTo(rows, now, i), None, |rows|, first);
      } else {
        TotalMonotone(m, m, rows, StampedTo(rows, now, i), None, |rows|);
      }
    } else {
      TotalMonotone(m, m, rows, StampedTo(rows, now, i), None, |rows|);
    }
  }

  /** How many active rows there are besides one of them does not depend on which one. */
  lemma OthersPresent(rows: seq<Row>, i: nat)
    requires i < |rows| && Active(rows[i].status)
    ensures Over(Present(), rows, Some(i)) == Over(Present(), rows, None) - 1
  {
    Leaving(Present(), rows, i, |rows|);
  }

  /**
   * One pass settles exactly when, before it, the recently updated active orders other than the first one already made
   * as large a volume as all active orders but one.
   */
  lemma OnePassSettlesIff(rows: seq<Row>, now: int, first: nat)
    requires FirstActive(rows, first)
    ensures Recalculated(Recalculated(rows, now), now) == Recalculated(rows, now) <==>
            Min(18, Over(Recent(now), rows, Some(first))) == Min(18, Over(Present(), rows, None) - 1)
  {
    var once := Recalculated(rows, now);
    var twice := Recalculated(once, now);
    PassSettles(rows, now, |rows|);
    PassSettles(once, now, |rows|);
    forall i | 0 <= i < |rows| && Active(rows[i].status)
      ensures once[i] == twice[i] <==>
        Min(18, Over(Recent(now), StampedTo(rows, now, i), Some(i))) == Min(18, Over(Present(), rows, None) - 1)
      ensures Over(Recent(now), rows, Some(first)) <= Over(Recent(now), StampedTo(rows, now, i),
          Some(i)) <= Over(Present(), rows, None) - 1
    {
      SecondPassIsFinal(rows, now, i);
      FinalAtOnce(rows, now, i);
      OthersPresent(rows, i);
      FirstCountsFewest(rows, now, first, i);
      StampingAddsRecent(rows, now, i, Some(i));
    }
    FirstSeesNothingStamped(rows, now, first);
    assert twice == once <==> forall i :: 0 <= i < |rows| ==> once[i] == twice[i];
  }

  lemma FirstSeesNothingStamped(rows: seq<Row>, now: int, first: nat)
    requires FirstActive(rows, first)
    ensures StampedTo(rows, now, first) == rows
  {
  }

  /** With no active order a pass changes nothing. */
  lemma NothingActive(rows: seq<Row>, now: int)
    requires forall i :: 0 <= i < |rows| ==> !Active(rows[i].status)
    ensures Recalculated(rows, now) == rows
  {
    PassSettles(rows, now, |rows|);
  }

  /** One pass is not always enough: an order not touched for three days is counted only by those visited after it. */
  lemma OnePassCanBeStale()
    ensures
      var rows := [Row(0, Confirmed, 0, None), Row(0, Confirmed, -73 * 3_600_000_000, None)];
      Recalculated(Recalculated(rows, 0), 0) != Recalculated(rows, 0)
  {
    var rows := [Row(0, Confirmed, 0, None), Row(0, Confirmed, -73 * 3_600_000_000, None)];
    assert Over(Recent(0), rows, Some(0)) == 0 by { assert Total(Recent(0), rows, Some(0), 1) == 0; }
    assert Over(Present(), rows, None) == 2 by { assert Total(Present(), rows, None, 1) == 1; }
    OnePassSettlesIff(rows, 0, 0);
  }

  // ---- The loop ----

  /** One estimate, accumulated over the orders of the scope. */
  method CalculateEtaMinutes(rows: seq<Row>, slot: int, exclude: Option<nat>, now: int) returns (eta: nat)
    ensures eta == Eta(rows, now, slot, exclude)
  {
    var queue, backlog, recent := 0, 0, 0;
    for i := 0 to |rows|
      invariant queue == Total(Queued(now), rows, exclude, i)
      invariant backlog == Total(Backlog(now, slot), rows, exclude, i)
      invariant recent == Total(Recent(now), rows, exclude, i)
    {
      var r := rows[i];
      if exclude != Some(i) && Active(r.status) {
        var weight := Weight(r.status);
        if r.slot >= now {
          queue := queue + weight;
        }
        if now <= r.slot <= slot {
          backlog := backlog + weight;
        }
        if r.updatedAt >= now - 72 * 3_600_000_000 {
          recent := recent + 1;
        }
      }
    }
    eta := 8 + CeilDiv(27 * queue, 100) + CeilDiv(22 * backlog, 100) + Min(18, recent) +
      Min(20, MinutesUntil(slot, now));
  }
}
