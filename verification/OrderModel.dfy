/**
 * Orders, their line items and slot capacities, and what each ordering and fulfillment handler commits.
 * Times are microseconds; one handler takes one reading of the clock.
 */
module OrderModel {
  import opened Common

  const MINUTE: int := 60_000_000
  const SLOT_LENGTH: int := 15 * MINUTE
  const DEFAULT_SLOT_CAPACITY: nat := 4
  const QUOTE_TTL: int := 15 * MINUTE
  const CANCEL_CUTOFF: int := 6 * 60 * MINUTE

  datatype OrderType = Pickup | Delivery

  datatype Status =
    | Draft | Quoted | Conflict
    | Confirmed | Preparing
    | ReadyForPickup | HandedOff
    | ReadyForDispatch | OutForDelivery | Delivered
    | Cancelled

  predicate Mutable(s: Status) { s == Draft || s == Quoted || s == Conflict }

  predicate Finalized(s: Status) {
    || s == Confirmed || s == Preparing || s == ReadyForPickup || s == HandedOff
    || s == ReadyForDispatch || s == OutForDelivery || s == Delivered
  }

  datatype Line = Line(item: string, quantity: nat, unitPrice: nat, total: nat)

  /** A keyed hash, injective in what it hashes. */
  datatype Hash = Hash(order: nat, code: string)

  datatype Order = Order(
    kind: OrderType,
    status: Status,
    slot: int,
    address: Option<nat>,
    subtotal: nat,
    fee: nat,
    total: nat,
    quoteExpiresAt: Option<int>,
    conflictReason: Option<string>,
    confirmedAt: Option<int>,
    preparingAt: Option<int>,
    readyAt: Option<int>,
    dispatchedAt: Option<int>,
    handedOffAt: Option<int>,
    deliveredAt: Option<int>,
    codeHash: Option<Hash>,
    codeExpiresAt: Option<int>)

  /** History: a pickup code as it was issued. */
  datatype Issue = Issue(code: string, at: int, ttl: int, status: Status)

  datatype Db = Db(
    orders: map<nat, Order>,
    lines: map<nat, seq<Line>>,
    capacity: map<int, nat>,
    issued: map<nat, seq<Issue>>)

  datatype LineRequest = LineRequest(item: string, quantity: nat)

  datatype DraftRequest = DraftRequest(kind: OrderType, slot: int, address: Option<nat>, lines: seq<LineRequest>)

  /**
   * What the handlers look up elsewhere: active menu prices, the ZIP codes of the user's addresses, fees of active
   * delivery zones.
   */
  datatype Env = Env(menu: map<string, nat>, zips: map<nat, string>, fees: map<string, nat>)

  datatype Command =
    | Create(id: nat, draft: DraftRequest)
    | Update(id: nat, draft: DraftRequest)
    | Quote(id: nat)
    | Confirm(id: nat)
    | Cancel(id: nat)
    | Transition(id: nat, target: Status)
    | IssueCode(id: nat, code: string, ttlSetting: int)
    | VerifyCode(id: nat, code: string)
    | SetCapacity(slot: int, seats: nat)
    | ClearCapacity(slot: int)

  datatype OrderError =
    | NotFound | NotMutable | NoLines | DuplicateItem | Misaligned | BadMenuItem
    | AddressMissing | AddressNotFound | OutsideZones | SlotFull
    | NotCancellable | BadTransition | HandoffNeedsCode
    | NotPickup | NotEligible | NotReady | NoCode | CodeExpired | WrongCode

  /**
   * A handler's effect: what is committed, and the error it answers with, if any. A full slot commits and answers
   * with an error.
   */
  datatype Reply = Reply(db: Db, error: Option<OrderError>)

  function Refuse(db: Db, e: OrderError): Reply { Reply(db, Some(e)) }

  function PutOrder(db: Db, id: nat, o: Order): Db { db.(orders := db.orders[id := o]) }

  // ---- Slots ----

  function CapacityOf(db: Db, slot: int): nat
  {
    if slot in db.capacity then db.capacity[slot] else DEFAULT_SLOT_CAPACITY
  }

  function Seated(orders: map<nat, Order>, slot: int): set<nat> {
    set id | id in orders && Finalized(orders[id].status) && orders[id].slot == slot
  }

  /** Fewer finalized orders at the slot than it has seats, the excluded one aside. */
  predicate HasCapacity(db: Db, slot: int, exclude: nat)
  {
    |Seated(db.orders, slot) - {exclude}| < CapacityOf(db, slot)
  }

  predicate Aligned(slot: int) { slot % SLOT_LENGTH == 0 }

  // ---- Lines and money ----

  function Sum(lines: seq<Line>): nat {
    if lines == [] then 0 else Sum(lines[..|lines| - 1]) + lines[|lines| - 1].total
  }

  predicate DistinctItems(lines: seq<LineRequest>)
  {
    forall i, j :: 0 <= i < j < |lines| ==> lines[i].item != lines[j].item
  }

  function Priced(menu: map<string, nat>, lines: seq<LineRequest>): (r: seq<Line>)
    requires forall i :: 0 <= i < |lines| ==> lines[i].item in menu
    ensures |r| == |lines|
    ensures forall i ::
      0 <= i < |r| ==>
        r[i] == Line(lines[i].item, lines[i].quantity, menu[lines[i].item], menu[lines[i].item] * lines[i].quantity)
  {
    if lines == [] then []
    else
      var l := lines[|lines| - 1];
      var price := menu[l.item];
      var rest := Priced(menu, lines[..|lines| - 1]);
      assert price * l.quantity >= 0;
      rest + [Line(l.item, l.quantity, price, price * l.quantity)]
  }

  /** The five-digit ZIP a zone is looked up by. */
  function ZipKey(zip: string): string { if |zip| > 5 then zip[..5] else zip }

  /** The fee of an order, or why it cannot be delivered. */
  function FeeFor(env: Env, kind: OrderType, address: Option<nat>): Outcome<nat, OrderError> {
    if kind == Pickup then Ok(0)
    else if address.None? then Rejected(AddressMissing)
    else if address.value !in env.zips then Rejected(AddressNotFound)
    else if ZipKey(env.zips[address.value]) !in env.fees then Rejected(OutsideZones)
    else Ok(env.fees[ZipKey(env.zips[address.value])])
  }

  /** Checks shared by creating and replacing a draft. */
  function DraftFee(env: Env, d: DraftRequest): Outcome<nat, OrderError> {
    if d.lines == [] then Rejected(NoLines)
    else if !DistinctItems(d.lines) then Rejected(DuplicateItem)
    else if !Aligned(d.slot) then Rejected(Misaligned)
    else if exists i :: 0 <= i < |d.lines| && d.lines[i].item !in env.menu then Rejected(BadMenuItem)
    else FeeFor(env, d.kind, d.address)
  }

  function WithMoney(o: Order, lines: seq<Line>, fee: nat): Order {
    o.(subtotal := Sum(lines), fee := fee, total := Sum(lines) + fee)
  }

  // ---- Handlers ----

  /** A draft as requested: priced lines replace whatever lines the order had. */
  function Drafted(db: Db, env: Env, id: nat, o: Order, d: DraftRequest, fee: nat): Db
    requires forall i :: 0 <= i < |d.lines| ==> d.lines[i].item in env.menu
  {
    var lines := Priced(env.menu, d.lines);
    var o' := o.(kind := d.kind, slot := d.slot, address := if d.kind == Pickup then None else d.address,
                 status := Draft, conflictReason := None, quoteExpiresAt := None);
    PutOrder(db, id, WithMoney(o', lines, fee)).(lines := db.lines[id := lines])
  }

  const BLANK: Order := Order(Pickup, Draft, 0, None, 0, 0, 0, None, None, None, None, None, None, None, None, None,
      None)

  /** New orders get fresh ids. */
  function DoCreate(db: Db, env: Env, id: nat, d: DraftRequest): Reply {
    match DraftFee(env, d)
    case Rejected(e) => Refuse(db, e)
    case Ok(fee) => if id in db.orders then Refuse(db, NotFound) else Reply(Drafted(db, env, id, BLANK, d, fee), None)
  }

  function DoUpdate(db: Db, env: Env, id: nat, d: DraftRequest): Reply {
    if id !in db.orders then Refuse(db, NotFound)
    else if !Mutable(db.orders[id].status) then Refuse(db, NotMutable)
    else
      match DraftFee(env, d)
      case Rejected(e) => Refuse(db, e)
      case Ok(fee) => Reply(Drafted(db, env, id, db.orders[id], d, fee), None)
  }

  function LinesOf(db: Db, id: nat): seq<Line> { if id in db.lines then db.lines[id] else [] }

  function InConflict(o: Order): Order { o.(status := Conflict, conflictReason := Some("slot_capacity_exceeded")) }

  /** Quote and confirm re-check the slot, re-resolve the fee and re-add the stored lines. */
  function Reprice(db: Db, env: Env, id: nat): Outcome<Order, Reply> {
    if id !in db.orders then Rejected(Refuse(db, NotFound))
    else
      var o := db.orders[id];
      if !Mutable(o.status) then Rejected(Refuse(db, NotMutable))
      else if !HasCapacity(db, o.slot, id) then Rejected(Reply(PutOrder(db, id, InConflict(o)), Some(SlotFull)))
      else
        match FeeFor(env, o.kind, o.address)
        case Rejected(e) => Rejected(Refuse(db, e))
        case Ok(fee) => Ok(WithMoney(o, LinesOf(db, id), fee))
  }

  function AsQuoted(o: Order, now: int): Order
  {
    o.(status := Quoted, conflictReason := None, quoteExpiresAt := Some(now + QUOTE_TTL))
  }

  function AsConfirmed(o: Order, now: int): Order {
    o.(status := Confirmed, conflictReason := None, quoteExpiresAt := None, confirmedAt := Some(now))
  }

  function DoQuote(db: Db, env: Env, id: nat, now: int): Reply {
    match Reprice(db, env, id)
    case Rejected(reply) => reply
    case Ok(o) => Reply(PutOrder(db, id, AsQuoted(o, now)), None)
  }

  function DoConfirm(db: Db, env: Env, id: nat, now: int): Reply {
    match Reprice(db, env, id)
    case Rejected(reply) => reply
    case Ok(o) => Reply(PutOrder(db, id, AsConfirmed(o, now)), None)
  }

  predicate Cancellable(o: Order, now: int) {
    && o.status != HandedOff && o.status != OutForDelivery && o.status != Delivered
    && !(o.confirmedAt.Some? && o.confirmedAt.value <= now - CANCEL_CUTOFF)
  }

  function DoCancel(db: Db, id: nat, now: int): Reply {
    if id !in db.orders then Refuse(db, NotFound)
    else
      var o := db.orders[id];
      if o.status == Cancelled then Reply(db, None)
      else if !Cancellable(o, now) then Refuse(db, NotCancellable)
      else Reply(PutOrder(db, id, o.(status := Cancelled, conflictReason := None, quoteExpiresAt := None,
          codeHash := None, codeExpiresAt := None)), None)
  }

  predicate TransitionAllowed(kind: OrderType, from: Status, to: Status) {
    match from
    case Confirmed => to == Preparing || to == Cancelled
    case Preparing => to == Cancelled || to == (if kind == Pickup then ReadyForPickup else ReadyForDispatch)
    case ReadyForPickup => kind == Pickup && to == Cancelled
    case ReadyForDispatch => kind == Delivery && (to == OutForDelivery || to == Cancelled)
    case OutForDelivery => kind == Delivery && to == Delivered
    case _ => false
  }

  /** A transition stamps the stage it enters; becoming ready for pickup also voids any code issued before. */
  function Transitioned(o: Order, to: Status, now: int): Order {
    var o := o.(status := to, conflictReason := None);
    match to
    case Preparing => o.(preparingAt := Some(now))
    case ReadyForPickup => o.(readyAt := Some(now), codeHash := None, codeExpiresAt := None)
    case ReadyForDispatch => o.(readyAt := Some(now))
    case OutForDelivery => o.(dispatchedAt := Some(now))
    case Delivered => o.(deliveredAt := Some(now))
    case _ => o
  }

  function DoTransition(db: Db, id: nat, to: Status, now: int): Reply {
    if id !in db.orders then Refuse(db, NotFound)
    else if to == HandedOff then Refuse(db, HandoffNeedsCode)
    else if !TransitionAllowed(db.orders[id].kind, db.orders[id].status, to) then Refuse(db, BadTransition)
    else Reply(PutOrder(db, id, Transitioned(db.orders[id], to, now)), None)
  }

  function CodeTtl(setting: int): int { Max(60, setting) * 1_000_000 }

  predicate CodeEligible(s: Status) { s == Confirmed || s == Preparing || s == ReadyForPickup }

  function IssuesOf(db: Db, id: nat): seq<Issue> { if id in db.issued then db.issued[id] else [] }

  function DoIssueCode(db: Db, id: nat, code: string, ttlSetting: int, now: int): Reply {
    if id !in db.orders then Refuse(db, NotFound)
    else
      var o := db.orders[id];
      if o.kind != Pickup then Refuse(db, NotPickup)
      else if !CodeEligible(o.status) then Refuse(db, NotEligible)
      else
        var o' := o.(codeHash := Some(Hash(id, code)), codeExpiresAt := Some(now + CodeTtl(ttlSetting)));
        var issues := IssuesOf(db, id) + [Issue(code, now, CodeTtl(ttlSetting), o.status)];
        Reply(PutOrder(db, id, o').(issued := db.issued[id := issues]), None)
  }

  /** Why a submitted code is refused, if it is. */
  function CodeCheck(o: Order, id: nat, code: string, now: int): Option<OrderError> {
    if o.kind != Pickup then Some(NotPickup)
    else if o.status != ReadyForPickup then Some(NotReady)
    else if o.codeHash.None? || o.codeExpiresAt.None? then Some(NoCode)
    else if o.codeExpiresAt.value < now then Some(CodeExpired)
    else if o.codeHash.value != Hash(id, code) then Some(WrongCode)
    else None
  }

  function DoVerifyCode(db: Db, id: nat, code: string, now: int): Reply {
    if id !in db.orders then Refuse(db, NotFound)
    else
      match CodeCheck(db.orders[id], id, code, now)
      case Some(e) => Refuse(db, e)
      case None =>
        Reply(PutOrder(db, id, db.orders[id].(status := HandedOff, handedOffAt := Some(now), codeHash := None,
            codeExpiresAt := None)), None)
  }

  function DoSetCapacity(db: Db, slot: int, seats: nat): Reply {
    if !Aligned(slot) then Refuse(db, Misaligned) else Reply(db.(capacity := db.capacity[slot := seats]), None)
  }

  function DoClearCapacity(db: Db, slot: int): Reply {
    if !Aligned(slot) then Refuse(db, Misaligned)
    else if slot !in db.capacity then Refuse(db, NotFound)
    else Reply(db.(capacity := db.capacity - {slot}), None)
  }

  function Handle(db: Db, env: Env, c: Command, now: int): Reply {
    match c
    case Create(id, d) => DoCreate(db, env, id, d)
    case Update(id, d) => DoUpdate(db, env, id, d)
    case Quote(id) => DoQuote(db, env, id, now)
    case Confirm(id) => DoConfirm(db, env, id, now)
    case Cancel(id) => DoCancel(db, id, now)
    case Transition(id, to) => DoTransition(db, id, to, now)
    case IssueCode(id, code, ttl) => DoIssueCode(db, id, code, ttl, now)
    case VerifyCode(id, code) => DoVerifyCode(db, id, code, now)
    case SetCapacity(slot, seats) => DoSetCapacity(db, slot, seats)
    case ClearCapacity(slot) => DoClearCapacity(db, slot)
  }

  // ---- Runs ----

  datatype Event = Event(command: Command, env: Env, now: int)

  const EMPTY: Db := Db(map[], map[], map[], map[])

  function Run(db: Db, events: seq<Event>): Db
    decreases |events|
  {
    if events == [] then db else Run(Handle(db, events[0].env, events[0].command, events[0].now).db, events[1..])
  }

  /** The clock never goes back, starting from `clock`. */
  ghost predicate ClockFrom(clock: int, events: seq<Event>)
    decreases |events|
  {
    events != [] ==> clock <= events[0].now && ClockFrom(events[0].now, events[1..])
  }
}
