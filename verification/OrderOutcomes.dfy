/**
 * When each ordering and fulfillment handler goes through, and what it leaves of the order: statuses, times in
 * microseconds and seat counts are written out. Then the two ways of an order from the desk to its customer.
 */
module OrderOutcomes {
  import opened Common
  import opened OrderModel
  import OrderDesk

  // ---- Transitions ----

  /** The moves the fulfillment desk may make. */
  ghost predicate Permitted(kind: OrderType, from: Status, to: Status) {
    match kind
    case Pickup =>
      (from, to) in {(Confirmed, Preparing), (Preparing, ReadyForPickup),
                     (Confirmed, Cancelled), (Preparing, Cancelled), (ReadyForPickup, Cancelled)}
    case Delivery =>
      (from, to) in {(Confirmed, Preparing), (Preparing, ReadyForDispatch), (ReadyForDispatch, OutForDelivery),
                     (OutForDelivery, Delivered),
                     (Confirmed, Cancelled), (Preparing, Cancelled), (ReadyForDispatch, Cancelled)}
  }

  /** A permitted move goes through, any other is refused; a handoff always needs a code. */
  lemma TransitionsGoThroughIff(db: Db, id: nat, to: Status, now: int)
    requires id in db.orders
    ensures
      var r := DoTransition(db, id, to, now);
      && (r.error.None? <==> Permitted(db.orders[id].kind, db.orders[id].status, to))
      && (r.error.Some? ==> r.db == db && r.error.value == if to == HandedOff then HandoffNeedsCode else BadTransition)
  {
  }

  /** The stage that is entered is stamped and no other; becoming ready for pickup voids the code. */
  lemma TransitionLeaves(db: Db, id: nat, to: Status, now: int)
    requires id in db.orders && DoTransition(db, id, to, now).error.None?
    ensures
      var o := db.orders[id];
      DoTransition(db, id, to, now).db == PutOrder(db, id, o.(
        status := to,
        conflictReason := None,
        preparingAt := if to == Preparing then Some(now) else o.preparingAt,
        readyAt := if to in {ReadyForPickup, ReadyForDispatch} then Some(now) else o.readyAt,
        dispatchedAt := if to == OutForDelivery then Some(now) else o.dispatchedAt,
        deliveredAt := if to == Delivered then Some(now) else o.deliveredAt,
        codeHash := if to == ReadyForPickup then None else o.codeHash,
        codeExpiresAt := if to == ReadyForPickup then None else o.codeExpiresAt))
  {
  }

  // ---- Cancelling ----

  /**
   * An order may be cancelled until it is out or handed over, within six hours of its confirmation. Cancelling takes
   * quote, conflict and code away.
   */
  lemma CancelsIff(db: Db, id: nat, now: int)
    requires id in db.orders && db.orders[id].status != Cancelled
    ensures
      var o := db.orders[id];
      var r := DoCancel(db, id, now);
      && (r.error.None? <==>
            && o.status !in {HandedOff, OutForDelivery, Delivered}
            && (o.confirmedAt.Some? ==> now - o.confirmedAt.value < 6 * 3_600_000_000))
      && (r.error.Some? ==> r == Reply(db, Some(NotCancellable)))
      && (r.error.None? ==> r.db == PutOrder(db, id, o.(
            status := Cancelled, conflictReason := None, quoteExpiresAt := None,
            codeHash := None, codeExpiresAt := None)))
  {
  }

  // ---- Quoting and confirming ----

  /** The other orders that have a seat at the slot. */
  ghost function Others(db: Db, id: nat, slot: int): set<nat> {
    set x | x in db.orders && x != id && db.orders[x].slot == slot && db.orders[x].status in
            {Confirmed, Preparing, ReadyForPickup, HandedOff, ReadyForDispatch, OutForDelivery, Delivered}
  }

  /** Four seats unless the slot has a capacity of its own. */
  ghost predicate SeatLeft(db: Db, id: nat, slot: int) {
    |Others(db, id, slot)| < if slot in db.capacity then db.capacity[slot] else 4
  }

  /** The zone fee of the address's first five ZIP characters; none for pickup. */
  ghost function ZoneFee(env: Env, o: Order): Option<nat> {
    if o.kind == Pickup then Some(0)
    else if o.address.None? || o.address.value !in env.zips then None
    else
      var zip := env.zips[o.address.value];
      var zone := zip[..Min(5, |zip|)];
      if zone in env.fees then Some(env.fees[zone]) else None
  }

  /** What the lines cost together. */
  ghost function CostOf(lines: seq<Line>): nat { if lines == [] then 0 else lines[0].total + CostOf(lines[1..]) }

  lemma {:induction false} CostAppends(lines: seq<Line>, l: Line)
    ensures CostOf(lines + [l]) == CostOf(lines) + l.total
  {
    if lines == [] {
      assert lines + [l] == [l] && CostOf([l][1..]) == 0;
    } else {
      assert (lines + [l])[1..] == lines[1..] + [l];
      CostAppends(lines[1..], l);
    }
  }

  lemma {:induction false} CostIsSum(lines: seq<Line>)
    ensures Sum(lines) == CostOf(lines)
  {
    if lines != [] {
      var n := |lines| - 1;
      CostIsSum(lines[..n]);
      CostAppends(lines[..n], lines[n]);
      assert lines == lines[..n] + [lines[n]];
    }
  }

  /** Draft, quoted or in conflict. */
  ghost predicate Unconfirmed(s: Status) { s in {Draft, Quoted, Conflict} }

  ghost function StoredLines(db: Db, id: nat): seq<Line> { if id in db.lines then db.lines[id] else [] }

  /** The order with the current fee and the sum of its stored lines. */
  ghost function Repriced(db: Db, env: Env, id: nat): Order
    requires id in db.orders && ZoneFee(env, db.orders[id]).Some?
  {
    var fee, cost := ZoneFee(env, db.orders[id]).value, CostOf(StoredLines(db, id));
    db.orders[id].(subtotal := cost, fee := fee, total := cost + fee)
  }

  lemma SeatsAgree(db: Db, id: nat, slot: int)
    ensures HasCapacity(db, slot, id) <==> SeatLeft(db, id, slot)
  {
    assert Seated(db.orders, slot) - {id} == Others(db, id, slot);
  }

  lemma FeesAgree(env: Env, o: Order)
    ensures FeeFor(env, o.kind, o.address).Ok? <==> ZoneFee(env, o).Some?
    ensures ZoneFee(env, o).Some? ==> FeeFor(env, o.kind, o.address) == Ok(ZoneFee(env, o).value)
  {
    if o.address.Some? && o.address.value in env.zips {
      var zip := env.zips[o.address.value];
      assert ZipKey(zip) == zip[..Min(5, |zip|)];
    }
  }

  /** With the seat left or not, whatever that means. */
  lemma RepricesGivenRoom(db: Db, env: Env, id: nat, room: bool)
    requires id in db.orders && (room <==> HasCapacity(db, db.orders[id].slot, id))
    ensures
      var o := db.orders[id];
      && (Reprice(db, env, id).Ok? <==> Unconfirmed(o.status) && room && FeeFor(env, o.kind, o.address).Ok?)
      && (Reprice(db, env, id).Ok? ==>
            Reprice(db, env, id) == Ok(WithMoney(o, LinesOf(db, id), FeeFor(env, o.kind, o.address).value)))
      && (Reprice(db, env, id).Rejected? ==> Reprice(db, env, id).error.error.Some?)
  {
  }

  /** The same in terms of what the order costs. */
  lemma RepricesIff(db: Db, env: Env, id: nat, room: bool, r: Outcome<Order, Reply>)
    requires id in db.orders
    requires
      var o := db.orders[id];
      && (r.Ok? <==> Unconfirmed(o.status) && room && FeeFor(env, o.kind, o.address).Ok?)
      && (r.Ok? ==> r == Ok(WithMoney(o, LinesOf(db, id), FeeFor(env, o.kind, o.address).value)))
    ensures
      var o := db.orders[id];
      var possible := Unconfirmed(o.status) && room && ZoneFee(env, o).Some?;
      (r.Ok? <==> possible) && (possible ==> r == Ok(Repriced(db, env, id)))
  {
    FeesAgree(env, db.orders[id]);
    CostIsSum(LinesOf(db, id));
  }

  /**
   * A quote goes through exactly for an unconfirmed order with a seat left that can be delivered; it holds for a
   * quarter of an hour. Confirming goes through for the same orders and stamps the confirmation.
   */
  lemma QuotesAndConfirmsIff(db: Db, env: Env, id: nat, now: int)
    requires id in db.orders
    ensures
      var o := db.orders[id];
      var possible := Unconfirmed(o.status) && SeatLeft(db, id, o.slot) && ZoneFee(env, o).Some?;
      && (DoQuote(db, env, id, now).error.None? <==> possible)
      && (DoConfirm(db, env, id, now).error.None? <==> possible)
      && (possible ==>
            && DoQuote(db, env, id, now).db == PutOrder(db, id, Repriced(db, env, id).(
                 status := Quoted, conflictReason := None, quoteExpiresAt := Some(now + 15 * 60_000_000)))
            && DoConfirm(db, env, id, now).db == PutOrder(db, id, Repriced(db, env, id).(
                 status := Confirmed, conflictReason := None, quoteExpiresAt := None, confirmedAt := Some(now))))
  {
    SeatsAgree(db, id, db.orders[id].slot);
    RepricesGivenRoom(db, env, id, SeatLeft(db, id, db.orders[id].slot));
    RepricesIff(db, env, id, SeatLeft(db, id, db.orders[id].slot), Reprice(db, env, id));
  }

  /** Why not: the order is no longer to be changed, its slot is full, which commits the conflict, or its address. */
  lemma WhyNotQuoted(db: Db, env: Env, id: nat, now: int)
    requires id in db.orders && DoQuote(db, env, id, now).error.Some?
    ensures
      var o, r := db.orders[id], DoQuote(db, env, id, now);
      && (!Unconfirmed(o.status) <==> r.error == Some(NotMutable))
      && (Unconfirmed(o.status) && !SeatLeft(db, id, o.slot) <==> r.error == Some(SlotFull))
      && r.db == (if r.error != Some(SlotFull) then db
                  else PutOrder(db, id, o.(status := Conflict, conflictReason := Some("slot_capacity_exceeded"))))
      && (r.error == Some(AddressMissing) ==> o.kind == Delivery && o.address.None?)
      && (r.error == Some(AddressNotFound) ==> o.address.Some? && o.address.value !in env.zips)
      && (r.error == Some(OutsideZones) ==> o.address.Some? && o.address.value in env.zips)
      && r.error.value in {NotMutable, SlotFull, AddressMissing, AddressNotFound, OutsideZones}
      && DoConfirm(db, env, id, now) == r
  {
    SeatsAgree(db, id, db.orders[id].slot);
  }

  // ---- Suggestions ----

  ghost function QuarterHours(slot: int, j: int): int { slot + j * 900_000_000 }

  /**
   * What is suggested for a full slot: free slots among the twenty-four quarter-hours after it, in order, at most
   * three; a free one is missing only if three earlier ones are suggested.
   */
  lemma ThreeEarliestSlots(free: int -> bool, slot: int, s: seq<int>)
    requires OrderDesk.Suggested(free, slot, OrderDesk.MOST_SUGGESTIONS, OrderDesk.SCANNED_SLOTS, s)
    ensures |s| <= 3 && forall i, k :: 0 <= i < k < |s| ==> s[i] < s[k]
    ensures forall x :: x in s ==> free(x) && exists j :: 1 <= j <= 24 && x == QuarterHours(slot, j)
    ensures forall j :: 1 <= j <= 24 && free(QuarterHours(slot, j)) && QuarterHours(slot, j) !in s ==>
              |s| == 3 && s[2] < QuarterHours(slot, j)
  {
    forall x | x in s
      ensures free(x) && exists j :: 1 <= j <= 24 && x == QuarterHours(slot, j)
    {
      var j :| 1 <= j <= OrderDesk.SCANNED_SLOTS && x == OrderDesk.SlotAfter(slot, j);
      assert x == QuarterHours(slot, j);
    }
    forall j | 1 <= j <= 24 && free(QuarterHours(slot, j)) && QuarterHours(slot, j) !in s
      ensures |s| == 3 && s[2] < QuarterHours(slot, j)
    {
      assert QuarterHours(slot, j) == OrderDesk.SlotAfter(slot, j)
        <= OrderDesk.SlotAfter(slot, OrderDesk.SCANNED_SLOTS);
    }
  }

  // ---- Drafts ----

  /** Some lines, each of another item of the menu, a slot on the quarter-hour, and an address that can be served. */
  ghost predicate Draftable(env: Env, d: DraftRequest) {
    && d.lines != []
    && (forall i, j :: 0 <= i < j < |d.lines| ==> d.lines[i].item != d.lines[j].item)
    && d.slot % (15 * 60_000_000) == 0
    && (forall i :: 0 <= i < |d.lines| ==> d.lines[i].item in env.menu)
    && ZoneFee(env, BLANK.(kind := d.kind, address := d.address)).Some?
  }

  /** `lines` are the requested ones at the menu's prices. */
  ghost predicate AtMenuPrices(env: Env, d: DraftRequest, lines: seq<Line>) {
    && |lines| == |d.lines|
    && forall i :: 0 <= i < |lines| ==>
         && lines[i].item == d.lines[i].item && lines[i].quantity == d.lines[i].quantity
         && lines[i].item in env.menu && lines[i].unitPrice == env.menu[lines[i].item]
         && lines[i].total == lines[i].unitPrice * lines[i].quantity
  }

  /** The draft `o` as requested, with its lines; whatever `was` had been stamped stays. */
  ghost predicate DraftOf(env: Env, d: DraftRequest, was: Order, o: Order, lines: seq<Line>) {
    && AtMenuPrices(env, d, lines)
    && var fee := ZoneFee(env, BLANK.(kind := d.kind, address := d.address));
    && fee.Some?
    && o == was.(kind := d.kind, slot := d.slot, address := if d.kind == Pickup then None else d.address,
                 status := Draft, conflictReason := None, quoteExpiresAt := None,
                 subtotal := CostOf(lines), fee := fee.value, total := CostOf(lines) + fee.value)
  }

  lemma DraftFeeIff(env: Env, d: DraftRequest)
    ensures DraftFee(env, d).Ok? <==> Draftable(env, d)
    ensures DraftFee(env, d).Ok? ==>
      ZoneFee(env, BLANK.(kind := d.kind, address := d.address)) == Some(DraftFee(env, d).value)
  {
    FeesAgree(env, BLANK.(kind := d.kind, address := d.address));
  }

  /** A new draft goes through exactly if it is in order; so does a change, if the order is still unconfirmed. */
  lemma DraftsIff(db: Db, env: Env, id: nat, d: DraftRequest)
    ensures id !in db.orders ==> (DoCreate(db, env, id, d).error.None? <==> Draftable(env, d))
    ensures id in db.orders ==>
      (DoUpdate(db, env, id, d).error.None? <==> Unconfirmed(db.orders[id].status) && Draftable(env, d))
    ensures DoCreate(db, env, id, d).error.Some? ==> DoCreate(db, env, id, d).db == db
    ensures DoUpdate(db, env, id, d).error.Some? ==> DoUpdate(db, env, id, d).db == db
  {
    DraftFeeIff(env, d);
  }

  lemma DraftedIs(db: Db, env: Env, id: nat, was: Order, d: DraftRequest, fee: nat)
    requires Draftable(env, d) && DraftFee(env, d) == Ok(fee)
    ensures
      var db' := Drafted(db, env, id, was, d, fee);
      && id in db'.orders && id in db'.lines && DraftOf(env, d, was, db'.orders[id], db'.lines[id])
      && db'.orders == db.orders[id := db'.orders[id]] && db'.lines == db.lines[id := db'.lines[id]]
      && db'.capacity == db.capacity && db'.issued == db.issued
  {
    DraftFeeIff(env, d);
    CostIsSum(Priced(env.menu, d.lines));
  }

  /** What a draft leaves: the request at the menu's prices, and nothing else of the tables changed. */
  lemma DraftsLeave(db: Db, env: Env, id: nat, d: DraftRequest)
    ensures
      var r := DoCreate(db, env, id, d);
      r.error.None? ==>
        && id in r.db.orders && id in r.db.lines && DraftOf(env, d, BLANK, r.db.orders[id], r.db.lines[id])
        && r.db == db.(orders := db.orders[id := r.db.orders[id]], lines := db.lines[id := r.db.lines[id]])
    ensures
      var r := DoUpdate(db, env, id, d);
      r.error.None? ==>
        && id in db.orders && id in r.db.orders && id in r.db.lines
        && DraftOf(env, d, db.orders[id], r.db.orders[id], r.db.lines[id])
        && r.db == db.(orders := db.orders[id := r.db.orders[id]], lines := db.lines[id := r.db.lines[id]])
  {
    DraftFeeIff(env, d);
    if DraftFee(env, d).Ok? {
      var fee := DraftFee(env, d).value;
      DraftedIs(db, env, id, BLANK, d, fee);
      if id in db.orders { DraftedIs(db, env, id, db.orders[id], d, fee); }
    }
  }

  // ---- Pickup codes ----

  /**
   * A code is issued exactly for a pickup order confirmed and not yet gone, for its time to live, at least a minute.
   */
  lemma IssuesIff(db: Db, id: nat, code: string, setting: int, now: int)
    requires id in db.orders
    ensures
      var o, r := db.orders[id], DoIssueCode(db, id, code, setting, now);
      && (r.error.None? <==> o.kind == Pickup && o.status in {Confirmed, Preparing, ReadyForPickup})
      && (r.error.Some? ==> r.db == db)
      && (r.error.None? ==>
            && r.db.orders == db.orders[id := o.(
                 codeHash := Some(Hash(id, code)),
                 codeExpiresAt := Some(now + (if setting < 60 then 60 else setting) * 1_000_000))]
            && r.db.lines == db.lines && r.db.capacity == db.capacity)
  {
  }

  /** A handoff goes through exactly for a ready pickup order, by the stored code, up to and including its expiry. */
  lemma VerifiesIff(db: Db, id: nat, code: string, now: int)
    requires id in db.orders
    ensures
      var o, r := db.orders[id], DoVerifyCode(db, id, code, now);
      && (r.error.None? <==>
            && o.kind == Pickup && o.status == ReadyForPickup && o.codeHash == Some(Hash(id, code))
            && o.codeExpiresAt.Some? && now <= o.codeExpiresAt.value)
      && (r.error.Some? ==> r.db == db)
      && (r.error.None? ==> r.db == PutOrder(db, id, o.(
            status := HandedOff, handedOffAt := Some(now), codeHash := None, codeExpiresAt := None)))
  {
  }

  // ---- From the desk to the customer ----


  ghost predicate AllGoThrough(db: Db, events: seq<Event>)
    decreases |events|
  {
    events != [] ==>
      var r := Handle(db, events[0].env, events[0].command, events[0].now);
      r.error.None? && AllGoThrough(r.db, events[1..])
  }

  lemma FirstGoesThrough(db: Db, e: Event, rest: seq<Event>, r: Reply)
    requires r == Handle(db, e.env, e.command, e.now) && r.error.None? && AllGoThrough(r.db, rest)
    ensures AllGoThrough(db, [e] + rest) && Run(db, [e] + rest) == Run(r.db, rest)
  {
    assert ([e] + rest)[1..] == rest;
  }

  /** Any unconfirmed order with a seat left whose fee can be told. */
  ghost predicate CanBeConfirmed(db: Db, env: Env, id: nat, kind: OrderType) {
    && id in db.orders && db.orders[id].kind == kind && Unconfirmed(db.orders[id].status)
    && SeatLeft(db, id, db.orders[id].slot) && ZoneFee(env, db.orders[id]).Some?
  }

  lemma Confirms(db: Db, env: Env, id: nat, kind: OrderType, now: int, rest: seq<Event>)
    requires CanBeConfirmed(db, env, id, kind)
    ensures
      var r := Handle(db, env, Confirm(id), now);
      && r.error.None? && id in r.db.orders && r.db.orders[id].kind == kind && r.db.orders[id].status == Confirmed
      && r.db.orders[id].confirmedAt == Some(now)
      && (AllGoThrough(r.db, rest) ==>
            && AllGoThrough(db, [Event(Confirm(id), env, now)] + rest)
            && Run(db, [Event(Confirm(id), env, now)] + rest) == Run(r.db, rest))
  {
    QuotesAndConfirmsIff(db, env, id, now);
    var r := Handle(db, env, Confirm(id), now);
    if AllGoThrough(r.db, rest) { FirstGoesThrough(db, Event(Confirm(id), env, now), rest, r); }
  }

  lemma MovesOn(db: Db, env: Env, id: nat, to: Status, now: int, rest: seq<Event>)
    requires id in db.orders && Permitted(db.orders[id].kind, db.orders[id].status, to)
    ensures
      var r := Handle(db, env, Transition(id, to), now);
      && r == DoTransition(db, id, to, now) && r.error.None?
      && (AllGoThrough(r.db, rest) ==>
            && AllGoThrough(db, [Event(Transition(id, to), env, now)] + rest)
            && Run(db, [Event(Transition(id, to), env, now)] + rest) == Run(r.db, rest))
  {
    TransitionsGoThroughIff(db, id, to, now);
    var r := Handle(db, env, Transition(id, to), now);
    if AllGoThrough(r.db, rest) { FirstGoesThrough(db, Event(Transition(id, to), env, now), rest, r); }
  }

  ghost predicate StagesOf(o: Order, confirmed: int, preparing: int, ready: int) {
    o.confirmedAt == Some(confirmed) && o.preparingAt == Some(preparing) && o.readyAt == Some(ready)
  }

  /** Confirmed, prepared and made ready, and then whatever comes. */
  lemma MadeReady(db: Db, env: Env, id: nat, to: Status, at: seq<int>, rest: seq<Event>)
    requires id in db.orders && CanBeConfirmed(db, env, id, db.orders[id].kind) && |at| == 3
    requires to == if db.orders[id].kind == Pickup then ReadyForPickup else ReadyForDispatch
    ensures
      var db0 := Handle(db, env, Confirm(id), at[0]).db;
      var db2 := DoTransition(DoTransition(db0, id, Preparing, at[1]).db, id, to, at[2]).db;
      var events := [Event(Confirm(id), env, at[0])] + ([Event(Transition(id, Preparing), env, at[1])] +
                    ([Event(Transition(id, to), env, at[2])] + rest));
      && id in db2.orders && db2.orders[id].kind == db.orders[id].kind && db2.orders[id].status == to
      && StagesOf(db2.orders[id], at[0], at[1], at[2])
      && (AllGoThrough(db2, rest) ==> AllGoThrough(db, events) && Run(db, events) == Run(db2, rest))
  {
    var e1, e2 := Event(Transition(id, Preparing), env, at[1]), Event(Transition(id, to), env, at[2]);
    var db0 := Handle(db, env, Confirm(id), at[0]).db;
    Confirms(db, env, id, db.orders[id].kind, at[0], [e1] + ([e2] + rest));
    var db1 := DoTransition(db0, id, Preparing, at[1]).db;
    MovesOn(db0, env, id, Preparing, at[1], [e2] + rest);
    TransitionLeaves(db0, id, Preparing, at[1]);
    MovesOn(db1, env, id, to, at[2], rest);
    TransitionLeaves(db1, id, to, at[2]);
  }

  lemma SentOut(db: Db, env: Env, id: nat, out: int, delivered: int)
    requires id in db.orders && db.orders[id].kind == Delivery && db.orders[id].status == ReadyForDispatch
    ensures
      var events := [Event(Transition(id, OutForDelivery), env, out)] +
                    ([Event(Transition(id, Delivered), env, delivered)] + []);
      && AllGoThrough(db, events) && id in Run(db, events).orders
      && Run(db, events).orders[id] == db.orders[id].(
           status := Delivered, conflictReason := None, dispatchedAt := Some(out), deliveredAt := Some(delivered))
  {
    var db1 := DoTransition(db, id, OutForDelivery, out).db;
    MovesOn(db, env, id, OutForDelivery, out, [Event(Transition(id, Delivered), env, delivered)] + []);
    TransitionLeaves(db, id, OutForDelivery, out);
    MovesOn(db1, env, id, Delivered, delivered, []);
    TransitionLeaves(db1, id, Delivered, delivered);
  }

  /** Once confirmed, prepared, made ready and sent out, a delivery order is delivered, each stage at its time. */
  lemma DeliveryRun(db: Db, env: Env, id: nat, at: seq<int>)
    requires CanBeConfirmed(db, env, id, Delivery) && |at| == 5
    ensures
      var events := [Event(Confirm(id), env, at[0]), Event(Transition(id, Preparing), env, at[1]),
                     Event(Transition(id, ReadyForDispatch), env, at[2]),
                     Event(Transition(id, OutForDelivery), env, at[3]), Event(Transition(id, Delivered), env, at[4])];
      && AllGoThrough(db, events) && id in Run(db, events).orders
      && var o := Run(db, events).orders[id];
      && o.status == Delivered && StagesOf(o, at[0], at[1], at[2])
      && o.dispatchedAt == Some(at[3]) && o.deliveredAt == Some(at[4])
  {
    var e1, e2 := Event(Transition(id, Preparing), env, at[1]), Event(Transition(id, ReadyForDispatch), env, at[2]);
    var e3, e4 := Event(Transition(id, OutForDelivery), env, at[3]), Event(Transition(id, Delivered), env, at[4]);
    var db0 := Handle(db, env, Confirm(id), at[0]).db;
    var db2 := DoTransition(DoTransition(db0, id, Preparing, at[1]).db, id, ReadyForDispatch, at[2]).db;
    MadeReady(db, env, id, ReadyForDispatch, at[..3], [e3] + ([e4] + []));
    SentOut(db2, env, id, at[3], at[4]);
    assert [Event(Confirm(id), env, at[0]), e1, e2, e3, e4]
        == [Event(Confirm(id), env, at[0])] + ([e1] + ([e2] + ([e3] + ([e4] + []))));
  }

  lemma IssuesOn(db: Db, env: Env, id: nat, code: string, setting: int, now: int, rest: seq<Event>)
    requires id in db.orders && db.orders[id].kind == Pickup && db.orders[id].status == ReadyForPickup
    ensures
      var e := Event(IssueCode(id, code, setting), env, now);
      var r := DoIssueCode(db, id, code, setting, now);
      && r.error.None?
      && (AllGoThrough(r.db, rest) ==> AllGoThrough(db, [e] + rest) && Run(db, [e] + rest) == Run(r.db, rest))
  {
    IssuesIff(db, id, code, setting, now);
    var r := DoIssueCode(db, id, code, setting, now);
    if AllGoThrough(r.db, rest) { FirstGoesThrough(db, Event(IssueCode(id, code, setting), env, now), rest, r); }
  }

  lemma HandsOver(db: Db, env: Env, id: nat, code: string, now: int)
    requires id in db.orders && DoVerifyCode(db, id, code, now).error.None?
    ensures
      var e := Event(VerifyCode(id, code), env, now);
      AllGoThrough(db, [e] + []) && Run(db, [e] + []) == DoVerifyCode(db, id, code, now).db
  {
    FirstGoesThrough(db, Event(VerifyCode(id, code), env, now), [], DoVerifyCode(db, id, code, now));
  }

  lemma PickedUp(db: Db, env: Env, id: nat, code: string, setting: int, issued: int, shown: int)
    requires id in db.orders && db.orders[id].kind == Pickup && db.orders[id].status == ReadyForPickup
    requires shown <= issued + (if setting < 60 then 60 else setting) * 1_000_000
    ensures
      var events := [Event(IssueCode(id, code, setting), env, issued)] +
                    ([Event(VerifyCode(id, code), env, shown)] + []);
      && AllGoThrough(db, events) && id in Run(db, events).orders
      && Run(db, events).orders[id] == db.orders[id].(
           status := HandedOff, handedOffAt := Some(shown), codeHash := None, codeExpiresAt := None)
  {
    var db1 := DoIssueCode(db, id, code, setting, issued).db;
    IssuesOn(db, env, id, code, setting, issued, [Event(VerifyCode(id, code), env, shown)] + []);
    IssuesIff(db, id, code, setting, issued);
    VerifiesIff(db1, id, code, shown);
    HandsOver(db1, env, id, code, shown);
  }

  /** Once confirmed, prepared and ready, a pickup order is handed over by the code issued then, in time. */
  lemma PickupRun(db: Db, env: Env, id: nat, code: string, setting: int, at: seq<int>)
    requires CanBeConfirmed(db, env, id, Pickup) && |at| == 5
    requires at[4] <= at[3] + (if setting < 60 then 60 else setting) * 1_000_000
    ensures
      var events := [Event(Confirm(id), env, at[0]), Event(Transition(id, Preparing), env, at[1]),
                     Event(Transition(id, ReadyForPickup), env, at[2]),
                     Event(IssueCode(id, code, setting), env, at[3]), Event(VerifyCode(id, code), env, at[4])];
      && AllGoThrough(db, events) && id in Run(db, events).orders
      && var o := Run(db, events).orders[id];
      && o.status == HandedOff && StagesOf(o, at[0], at[1], at[2])
      && o.handedOffAt == Some(at[4]) && o.codeHash == None
  {
    var e1, e2 := Event(Transition(id, Preparing), env, at[1]), Event(Transition(id, ReadyForPickup), env, at[2]);
    var e3, e4 := Event(IssueCode(id, code, setting), env, at[3]), Event(VerifyCode(id, code), env, at[4]);
    var db0 := Handle(db, env, Confirm(id), at[0]).db;
    var db2 := DoTransition(DoTransition(db0, id, Preparing, at[1]).db, id, ReadyForPickup, at[2]).db;
    MadeReady(db, env, id, ReadyForPickup, at[..3], [e3] + ([e4] + []));
    PickedUp(db2, env, id, code, setting, at[3], at[4]);
    assert [Event(Confirm(id), env, at[0]), e1, e2, e3, e4]
        == [Event(Confirm(id), env, at[0])] + ([e1] + ([e2] + ([e3] + ([e4] + []))));
  }
}
