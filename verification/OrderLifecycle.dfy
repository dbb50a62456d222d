/**
 * What every run of order handlers keeps: money, stage timestamps, codes; and how an order moves after confirmation.
 */
module OrderLifecycle {
  import opened Common
  import opened OrderModel

  // ---- Money ----

  ghost predicate LinesOk(lines: seq<Line>) {
    && (forall i :: 0 <= i < |lines| ==> lines[i].total == lines[i].unitPrice * lines[i].quantity)
    && (forall i, j :: 0 <= i < j < |lines| ==> lines[i].item != lines[j].item)
  }

  ghost predicate MoneyOk(o: Order, lines: seq<Line>) {
    && o.subtotal == Sum(lines) && o.total == o.subtotal + o.fee
    && (o.kind == Pickup ==> o.fee == 0)
    && LinesOk(lines)
  }

  // ---- Stages ----

  ghost predicate Past(t: Option<int>, clock: int) { t.Some? ==> t.value <= clock }

  ghost predicate NotBefore(t: Option<int>, u: Option<int>) { u.Some? ==> t.Some? && t.value <= u.value }

  /** Which stage timestamps a status implies, exactly. */
  ghost predicate StampsFit(o: Order) {
    match o.status
    case Draft => Stamped(o, false, false, false, false, false, false)
    case Quoted => Stamped(o, false, false, false, false, false, false)
    case Conflict => Stamped(o, false, false, false, false, false, false)
    case Confirmed => Stamped(o, true, false, false, false, false, false)
    case Preparing => Stamped(o, true, true, false, false, false, false)
    case ReadyForPickup => o.kind == Pickup && Stamped(o, true, true, true, false, false, false)
    case HandedOff => o.kind == Pickup && Stamped(o, true, true, true, false, true, false)
    case ReadyForDispatch => o.kind == Delivery && Stamped(o, true, true, true, false, false, false)
    case OutForDelivery => o.kind == Delivery && Stamped(o, true, true, true, true, false, false)
    case Delivered => o.kind == Delivery && Stamped(o, true, true, true, true, false, true)
    case Cancelled => o.dispatchedAt.None? && o.handedOffAt.None? && o.deliveredAt.None?
  }

  ghost predicate Stamped(o: Order, confirmed: bool, preparing: bool, ready: bool, dispatched: bool, handedOff: bool,
      delivered: bool)
  {
    && o.confirmedAt.Some? == confirmed && o.preparingAt.Some? == preparing && o.readyAt.Some? == ready
    && o.dispatchedAt.Some? == dispatched && o.handedOffAt.Some? == handedOff && o.deliveredAt.Some? == delivered
  }

  /** Stage timestamps come one after the other, none in the future. */
  ghost predicate StampsOrdered(o: Order, clock: int) {
    && NotBefore(o.confirmedAt, o.preparingAt) && NotBefore(o.preparingAt, o.readyAt)
    && NotBefore(o.readyAt, o.dispatchedAt) && NotBefore(o.readyAt, o.handedOffAt)
      && NotBefore(o.dispatchedAt, o.deliveredAt)
    && Past(o.confirmedAt, clock) && Past(o.preparingAt, clock) && Past(o.readyAt, clock)
    && Past(o.dispatchedAt, clock) && Past(o.handedOffAt, clock) && Past(o.deliveredAt, clock)
  }

  // ---- Pickup codes ----

  /**
   * The stored hash is that of the latest code, valid for its time to live; once the order is ready, that code was
   * issued then or later.
   */
  ghost predicate CodeOk(o: Order, id: nat, issues: seq<Issue>) {
    && (forall i :: 0 <= i < |issues| ==> issues[i].ttl >= 60_000_000)
    && (o.codeHash.Some? ==>
          && issues != []
          && var last := issues[|issues| - 1];
          && o.codeHash == Some(Hash(id, last.code)) && o.codeExpiresAt == Some(last.at + last.ttl)
          && (o.status == ReadyForPickup ==> last.status == ReadyForPickup))
  }

  ghost predicate Good(o: Order, id: nat, lines: seq<Line>, issues: seq<Issue>, clock: int) {
    MoneyOk(o, lines) && StampsFit(o) && StampsOrdered(o, clock) && CodeOk(o, id, issues)
  }

  ghost predicate OrderOk(db: Db, id: nat, clock: int)
    requires id in db.orders
  {
    Good(db.orders[id], id, LinesOf(db, id), IssuesOf(db, id), clock)
  }

  ghost predicate Inv(db: Db, clock: int) { forall id :: id in db.orders ==> OrderOk(db, id, clock) }

  // ---- One handler ----

  /** A handler leaves every other order, its lines and its codes alone. */
  ghost predicate Touches(db: Db, db': Db, id: nat) {
    && id in db'.orders && db'.orders == db.orders[id := db'.orders[id]]
    && (forall x :: x != id ==> LinesOf(db', x) == LinesOf(db, x) && IssuesOf(db', x) == IssuesOf(db, x))
  }

  lemma TouchKeeps(db: Db, db': Db, id: nat, now: int)
    requires Inv(db, now) && Touches(db, db', id)
    requires Good(db'.orders[id], id, LinesOf(db', id), IssuesOf(db', id), now)
    ensures Inv(db', now)
  {
    forall x | x in db'.orders
      ensures OrderOk(db', x, now)
    {
      if x != id { assert OrderOk(db, x, now); }
    }
  }

  lemma LaterKeeps(db: Db, clock: int, now: int)
    requires Inv(db, clock) && clock <= now
    ensures Inv(db, now)
  {
    forall x | x in db.orders ensures OrderOk(db, x, now) { assert OrderOk(db, x, clock); }
  }

  lemma PricedLinesOk(menu: map<string, nat>, lines: seq<LineRequest>)
    requires DistinctItems(lines) && forall i :: 0 <= i < |lines| ==> lines[i].item in menu
    ensures LinesOk(Priced(menu, lines))
  {
  }

  /** Stages are unchanged and the status stays before confirmation. */
  ghost predicate StillBefore(o: Order, o': Order) {
    && Mutable(o.status) && Mutable(o'.status)
    && o'.confirmedAt == o.confirmedAt && o'.preparingAt == o.preparingAt && o'.readyAt == o.readyAt
    && o'.dispatchedAt == o.dispatchedAt && o'.handedOffAt == o.handedOffAt && o'.deliveredAt == o.deliveredAt
    && o'.codeHash == o.codeHash && o'.codeExpiresAt == o.codeExpiresAt
  }

  lemma BeforeConfirmationGood(o: Order, o': Order, id: nat, lines: seq<Line>, lines': seq<Line>, issues: seq<Issue>,
      clock: int)
    requires Good(o, id, lines, issues, clock) && StillBefore(o, o') && MoneyOk(o', lines')
    ensures Good(o', id, lines', issues, clock)
  {
  }

  lemma ConfirmedGood(o: Order, id: nat, lines: seq<Line>, issues: seq<Issue>, now: int)
    requires Good(o, id, lines, issues, now) && Mutable(o.status)
    ensures Good(AsConfirmed(o, now), id, lines, issues, now)
  {
  }

  lemma TransitionStamps(o: Order, to: Status, now: int)
    requires StampsFit(o) && StampsOrdered(o, now) && TransitionAllowed(o.kind, o.status, to)
    ensures StampsFit(Transitioned(o, to, now)) && StampsOrdered(Transitioned(o, to, now), now)
  {
  }

  lemma TransitionedGood(o: Order, id: nat, lines: seq<Line>, issues: seq<Issue>, to: Status, now: int)
    requires Good(o, id, lines, issues, now) && TransitionAllowed(o.kind, o.status, to)
    ensures Good(Transitioned(o, to, now), id, lines, issues, now)
  {
    TransitionStamps(o, to, now);
  }

  /** A requested draft's money adds up; it touches no other order and no stage or code of this one. */
  lemma DraftedOk(db: Db, env: Env, id: nat, o: Order, d: DraftRequest, fee: nat)
    requires DraftFee(env, d) == Ok(fee)
    ensures forall i :: 0 <= i < |d.lines| ==> d.lines[i].item in env.menu
    ensures
      var db' := Drafted(db, env, id, o, d, fee);
      && Touches(db, db', id) && MoneyOk(db'.orders[id], LinesOf(db', id)) && db'.issued == db.issued
      && (Mutable(o.status) ==> StillBefore(o, db'.orders[id]))
  {
    PricedLinesOk(env.menu, d.lines);
  }

  lemma CreateKeeps(db: Db, env: Env, id: nat, d: DraftRequest, now: int)
    requires Inv(db, now) && id !in db.issued
    ensures Inv(DoCreate(db, env, id, d).db, now)
  {
    if DraftFee(env, d).Ok? && id !in db.orders {
      DraftedOk(db, env, id, BLANK, d, DraftFee(env, d).value);
      TouchKeeps(db, DoCreate(db, env, id, d).db, id, now);
    }
  }

  lemma UpdateKeeps(db: Db, env: Env, id: nat, d: DraftRequest, now: int)
    requires Inv(db, now)
    ensures Inv(DoUpdate(db, env, id, d).db, now)
  {
    if id in db.orders && Mutable(db.orders[id].status) && DraftFee(env, d).Ok? {
      DraftedOk(db, env, id, db.orders[id], d, DraftFee(env, d).value);
      ReplacedKeeps(db, DoUpdate(db, env, id, d).db, id, now);
    }
  }

  lemma ReplacedKeeps(db: Db, db': Db, id: nat, now: int)
    requires Inv(db, now) && id in db.orders && Touches(db, db', id) && StillBefore(db.orders[id], db'.orders[id])
    requires MoneyOk(db'.orders[id], LinesOf(db', id)) && IssuesOf(db', id) == IssuesOf(db, id)
    ensures Inv(db', now)
  {
    assert OrderOk(db, id, now);
    BeforeConfirmationGood(db.orders[id], db'.orders[id], id, LinesOf(db, id), LinesOf(db', id), IssuesOf(db, id), now);
    TouchKeeps(db, db', id, now);
  }

  lemma RepricedGood(db: Db, env: Env, id: nat, now: int)
    requires Inv(db, now) && Reprice(db, env, id).Ok?
    ensures
      var o := Reprice(db, env, id).value;
      id in db.orders && StillBefore(db.orders[id], o) && Good(o, id, LinesOf(db, id), IssuesOf(db, id), now)
  {
    assert OrderOk(db, id, now);
    BeforeConfirmationGood(db.orders[id], Reprice(db, env, id).value, id, LinesOf(db, id), LinesOf(db, id),
        IssuesOf(db, id), now);
  }

  /** A refused quote or confirmation commits nothing, or the conflict of a full slot. */
  lemma RefusalCommits(db: Db, env: Env, id: nat)
    requires Reprice(db, env, id).Rejected?
    ensures
      var reply := Reprice(db, env, id).error;
      || reply.db == db
      || (id in db.orders && Mutable(db.orders[id].status) && reply.db == PutOrder(db, id, InConflict(db.orders[id])))
  {
  }

  lemma RefusalKeeps(db: Db, env: Env, id: nat, now: int)
    requires Inv(db, now) && Reprice(db, env, id).Rejected?
    ensures Inv(Reprice(db, env, id).error.db, now)
  {
    RefusalCommits(db, env, id);
    if Reprice(db, env, id).error.db != db { ConflictKeeps(db, id, now); }
  }

  lemma ConflictKeeps(db: Db, id: nat, now: int)
    requires Inv(db, now) && id in db.orders && Mutable(db.orders[id].status)
    ensures Inv(PutOrder(db, id, InConflict(db.orders[id])), now)
  {
    assert OrderOk(db, id, now);
    var o := db.orders[id];
    BeforeConfirmationGood(o, InConflict(o), id, LinesOf(db, id), LinesOf(db, id), IssuesOf(db, id), now);
    PutKeeps(db, id, InConflict(o), now);
  }

  lemma PutKeeps(db: Db, id: nat, o: Order, now: int)
    requires Inv(db, now) && Good(o, id, LinesOf(db, id), IssuesOf(db, id), now)
    ensures Inv(PutOrder(db, id, o), now)
  {
    TouchKeeps(db, PutOrder(db, id, o), id, now);
  }

  lemma QuoteKeeps(db: Db, env: Env, id: nat, now: int)
    requires Inv(db, now)
    ensures Inv(DoQuote(db, env, id, now).db, now)
  {
    if Reprice(db, env, id).Ok? {
      RepricedGood(db, env, id, now);
      var o := Reprice(db, env, id).value;
      BeforeConfirmationGood(o, AsQuoted(o, now), id, LinesOf(db, id), LinesOf(db, id), IssuesOf(db, id), now);
      PutKeeps(db, id, AsQuoted(o, now), now);
    } else {
      RefusalKeeps(db, env, id, now);
    }
  }

  lemma ConfirmKeeps(db: Db, env: Env, id: nat, now: int)
    requires Inv(db, now)
    ensures Inv(DoConfirm(db, env, id, now).db, now)
  {
    if Reprice(db, env, id).Ok? {
      RepricedGood(db, env, id, now);
      var o := Reprice(db, env, id).value;
      ConfirmedGood(o, id, LinesOf(db, id), IssuesOf(db, id), now);
      PutKeeps(db, id, AsConfirmed(o, now), now);
    } else {
      RefusalKeeps(db, env, id, now);
    }
  }

  lemma CancelKeeps(db: Db, id: nat, now: int)
    requires Inv(db, now)
    ensures Inv(DoCancel(db, id, now).db, now)
  {
    if DoCancel(db, id, now).db != db {
      assert OrderOk(db, id, now);
      TouchKeeps(db, DoCancel(db, id, now).db, id, now);
    }
  }

  lemma TransitionKeeps(db: Db, id: nat, to: Status, now: int)
    requires Inv(db, now)
    ensures Inv(DoTransition(db, id, to, now).db, now)
  {
    if DoTransition(db, id, to, now).error.None? {
      assert OrderOk(db, id, now);
      TransitionedGood(db.orders[id], id, LinesOf(db, id), IssuesOf(db, id), to, now);
      PutKeeps(db, id, Transitioned(db.orders[id], to, now), now);
    }
  }

  lemma IssuedGood(o: Order, id: nat, lines: seq<Line>, issues: seq<Issue>, code: string, ttl: int, now: int)
    requires Good(o, id, lines, issues, now) && ttl >= 60_000_000
    ensures Good(o.(codeHash := Some(Hash(id, code)), codeExpiresAt := Some(now + ttl)), id, lines,
                 issues + [Issue(code, now, ttl, o.status)], now)
  {
  }

  lemma IssueKeeps(db: Db, id: nat, code: string, ttl: int, now: int)
    requires Inv(db, now)
    ensures Inv(DoIssueCode(db, id, code, ttl, now).db, now)
  {
    if DoIssueCode(db, id, code, ttl, now).error.None? {
      assert OrderOk(db, id, now);
      IssuedGood(db.orders[id], id, LinesOf(db, id), IssuesOf(db, id), code, CodeTtl(ttl), now);
      TouchKeeps(db, DoIssueCode(db, id, code, ttl, now).db, id, now);
    }
  }

  lemma VerifyKeeps(db: Db, id: nat, code: string, now: int)
    requires Inv(db, now)
    ensures Inv(DoVerifyCode(db, id, code, now).db, now)
  {
    if DoVerifyCode(db, id, code, now).error.None? {
      assert OrderOk(db, id, now);
      TouchKeeps(db, DoVerifyCode(db, id, code, now).db, id, now);
    }
  }

  /** Codes are only ever issued for orders that exist. */
  ghost predicate IssuedForOrders(db: Db) { forall id :: id in db.issued ==> id in db.orders }

  lemma HandleKeepsIssued(db: Db, env: Env, c: Command, now: int)
    requires IssuedForOrders(db)
    ensures IssuedForOrders(Handle(db, env, c, now).db)
  {
  }

  lemma HandleKeeps(db: Db, env: Env, c: Command, now: int)
    requires Inv(db, now) && IssuedForOrders(db)
    ensures Inv(Handle(db, env, c, now).db, now)
  {
    match c
    case Create(id, d) => if id !in db.orders { CreateKeeps(db, env, id, d, now); }
    case Update(id, d) => UpdateKeeps(db, env, id, d, now);
    case Quote(id) => QuoteKeeps(db, env, id, now);
    case Confirm(id) => ConfirmKeeps(db, env, id, now);
    case Cancel(id) => CancelKeeps(db, id, now);
    case Transition(id, to) => TransitionKeeps(db, id, to, now);
    case IssueCode(id, code, ttl) => IssueKeeps(db, id, code, ttl, now);
    case VerifyCode(id, code) => VerifyKeeps(db, id, code, now);
    case SetCapacity(slot, seats) => CapacityKeeps(db, DoSetCapacity(db, slot, seats).db, now);
    case ClearCapacity(slot) => CapacityKeeps(db, DoClearCapacity(db, slot).db, now);
  }

  lemma CapacityKeeps(db: Db, db': Db, now: int)
    requires Inv(db, now) && db'.orders == db.orders && db'.lines == db.lines && db'.issued == db.issued
    ensures Inv(db', now)
  {
    forall id | id in db'.orders ensures OrderOk(db', id, now) { assert OrderOk(db, id, now); }
  }

  // ---- Whole runs ----

  function LastClock(clock: int, events: seq<Event>): int { if events == [] then clock else events[|events| - 1].now }

  lemma {:induction false} RunKeeps(db: Db, clock: int, events: seq<Event>)
    requires Inv(db, clock) && IssuedForOrders(db) && ClockFrom(clock, events)
    ensures Inv(Run(db, events), LastClock(clock, events)) && IssuedForOrders(Run(db, events))
    decreases |events|
  {
    if events != [] {
      var e := events[0];
      LaterKeeps(db, clock, e.now);
      HandleKeeps(db, e.env, e.command, e.now);
      HandleKeepsIssued(db, e.env, e.command, e.now);
      RunKeeps(Handle(db, e.env, e.command, e.now).db, e.now, events[1..]);
    }
  }

  /**
   * Money adds up in every reachable state: total = subtotal + fee, the subtotal is the sum of the stored lines, each
   * line is price times quantity, no menu item is on two lines, and a pickup order carries no fee.
   */
  lemma MoneyAlwaysAddsUp(clock: int, events: seq<Event>, id: nat)
    requires ClockFrom(clock, events) && id in Run(EMPTY, events).orders
    ensures
      var db := Run(EMPTY, events);
      var o := db.orders[id];
      && o.total == Sum(LinesOf(db, id)) + o.fee && o.subtotal == Sum(LinesOf(db, id))
      && (o.kind == Pickup ==> o.fee == 0)
      && LinesOk(LinesOf(db, id))
  {
    RunKeeps(EMPTY, clock, events);
    assert OrderOk(Run(EMPTY, events), id, LastClock(clock, events));
  }

  /**
   * In every reachable state an order's status and type say exactly which stages are stamped, and the stamps are
   * in order.
   */
  lemma StampsAlwaysFit(clock: int, events: seq<Event>, id: nat)
    requires ClockFrom(clock, events) && id in Run(EMPTY, events).orders
    ensures var o := Run(EMPTY, events).orders[id]; StampsFit(o) && StampsOrdered(o, LastClock(clock, events))
  {
    RunKeeps(EMPTY, clock, events);
    assert OrderOk(Run(EMPTY, events), id, LastClock(clock, events));
  }

  /**
   * A successful handoff used the latest code issued for the order; that code was issued while the order was already
   * ready for pickup, and no longer ago than its time to live, which is at least a minute.
   */
  lemma HandoffUsesTheLatestReadyCode(clock: int, events: seq<Event>, id: nat, code: string, now: int)
    requires ClockFrom(clock, events) && LastClock(clock, events) <= now
    requires DoVerifyCode(Run(EMPTY, events), id, code, now).error.None?
    ensures
      var issues := IssuesOf(Run(EMPTY, events), id);
      && issues != []
      && var last := issues[|issues| - 1];
      && last.code == code && last.status == ReadyForPickup && now <= last.at + last.ttl && last.ttl >= 60_000_000
  {
    RunKeeps(EMPTY, clock, events);
    assert OrderOk(Run(EMPTY, events), id, LastClock(clock, events));
  }

  // ---- After confirmation ----

  /** How many status changes are left at most. */
  function Rank(s: Status): nat {
    match s
    case Confirmed => 4
    case Preparing => 3
    case ReadyForPickup => 2
    case ReadyForDispatch => 2
    case OutForDelivery => 1
    case _ => 0
  }

  predicate Terminal(s: Status) { s == Cancelled || s == HandedOff || s == Delivered }

  /**
   * A legal move of an order that is past confirmation: type, slot and money frozen, rank lowered by a status
   * change, final states final.
   */
  ghost predicate LegalMove(o: Order, o': Order) {
    && !Mutable(o'.status)
    && o'.kind == o.kind && o'.slot == o.slot && o'.total == o.total
    && (o'.status != o.status ==> Rank(o'.status) < Rank(o.status))
    && (Terminal(o.status) ==> o' == o)
  }

  lemma CancelMoves(db: Db, id: nat, now: int)
    requires id in db.orders && !Mutable(db.orders[id].status)
    ensures var db' := DoCancel(db, id, now).db; id in db'.orders && LegalMove(db.orders[id], db'.orders[id])
  {
  }

  lemma TransitionedMoves(o: Order, to: Status, now: int)
    requires TransitionAllowed(o.kind, o.status, to)
    ensures LegalMove(o, Transitioned(o, to, now)) && Transitioned(o, to, now).status != HandedOff
  {
  }

  lemma TransitionMoves(db: Db, id: nat, to: Status, now: int)
    requires id in db.orders && !Mutable(db.orders[id].status)
    ensures
      var db' := DoTransition(db, id, to, now).db;
      && id in db'.orders && LegalMove(db.orders[id], db'.orders[id])
      && (db'.orders[id].status == HandedOff ==> db' == db)
  {
    if TransitionAllowed(db.orders[id].kind, db.orders[id].status, to) { TransitionedMoves(db.orders[id], to, now); }
  }

  lemma CodesMove(db: Db, id: nat, code: string, ttl: int, now: int)
    requires id in db.orders && !Mutable(db.orders[id].status)
    ensures var db' := DoIssueCode(db, id, code, ttl, now).db;
      id in db'.orders && LegalMove(db.orders[id], db'.orders[id]) && db'.orders[id].status == db.orders[id].status
    ensures var db' := DoVerifyCode(db, id, code, now).db; id in db'.orders && LegalMove(db.orders[id], db'.orders[id])
    ensures DoVerifyCode(db, id, code, now).db != db ==>
      DoVerifyCode(db, id, code, now).error.None? && db.orders[id].status == ReadyForPickup
  {
  }

  /** Order `x` and its lines are as before. */
  ghost predicate Leaves(db: Db, db': Db, x: nat) {
    x in db'.orders && x in db.orders && db'.orders[x] == db.orders[x] && LinesOf(db', x) == LinesOf(db, x)
  }

  lemma DraftsLeave(db: Db, env: Env, id: nat, d: DraftRequest, x: nat)
    requires x in db.orders && x != id
    ensures Leaves(db, DoCreate(db, env, id, d).db, x) && Leaves(db, DoUpdate(db, env, id, d).db, x)
  {
    if DraftFee(env, d).Ok? {
      DraftedOk(db, env, id, BLANK, d, DraftFee(env, d).value);
      if id in db.orders { DraftedOk(db, env, id, db.orders[id], d, DraftFee(env, d).value); }
    }
  }

  lemma RepriceLeaves(db: Db, env: Env, id: nat, now: int, x: nat)
    requires x in db.orders && x != id
    ensures Leaves(db, DoQuote(db, env, id, now).db, x) && Leaves(db, DoConfirm(db, env, id, now).db, x)
  {
  }

  lemma FulfillmentLeaves(db: Db, id: nat, to: Status, code: string, ttl: int, now: int, x: nat)
    requires x in db.orders && x != id
    ensures Leaves(db, DoCancel(db, id, now).db, x) && Leaves(db, DoTransition(db, id, to, now).db, x)
    ensures Leaves(db, DoIssueCode(db, id, code, ttl, now).db, x) && Leaves(db, DoVerifyCode(db, id, code, now).db, x)
  {
  }

  /** Commands that address another order, or no order, leave order `x` alone. */
  lemma OthersLeaveAlone(db: Db, env: Env, c: Command, now: int, x: nat)
    requires x in db.orders && (c.SetCapacity? || c.ClearCapacity? || c.id != x)
    ensures Leaves(db, Handle(db, env, c, now).db, x)
  {
    match c
    case Create(id, d) => DraftsLeave(db, env, id, d, x);
    case Update(id, d) => DraftsLeave(db, env, id, d, x);
    case Quote(id) => RepriceLeaves(db, env, id, now, x);
    case Confirm(id) => RepriceLeaves(db, env, id, now, x);
    case Cancel(id) => FulfillmentLeaves(db, id, Draft, "", 0, now, x);
    case Transition(id, to) => FulfillmentLeaves(db, id, to, "", 0, now, x);
    case IssueCode(id, code, ttl) => FulfillmentLeaves(db, id, Draft, code, ttl, now, x);
    case VerifyCode(id, code) => FulfillmentLeaves(db, id, Draft, code, 0, now, x);
    case SetCapacity(_, _) =>
    case ClearCapacity(_) =>
  }

  /** Only drafting writes lines. */
  lemma OtherwiseSameLines(db: Db, env: Env, c: Command, now: int)
    requires !c.Create? && !c.Update?
    ensures Handle(db, env, c, now).db.lines == db.lines
  {
  }

  lemma OwnCommandKeepsLines(db: Db, env: Env, c: Command, now: int, id: nat)
    requires id in db.orders && !Mutable(db.orders[id].status)
    ensures LinesOf(Handle(db, env, c, now).db, id) == LinesOf(db, id)
  {
    if c.Create? || c.Update? {
      if c.id != id { OthersLeaveAlone(db, env, c, now, id); }
    } else {
      OtherwiseSameLines(db, env, c, now);
    }
  }

  /**
   * One handler on an order past confirmation: a legal move, its lines untouched; and only a verified code hands
   * it over.
   */
  lemma AfterConfirmation(db: Db, env: Env, c: Command, now: int, id: nat)
    requires id in db.orders && !Mutable(db.orders[id].status)
    ensures
      var db' := Handle(db, env, c, now).db;
      && id in db'.orders && LegalMove(db.orders[id], db'.orders[id]) && LinesOf(db', id) == LinesOf(db, id)
      && (db'.orders[id].status == HandedOff && db.orders[id].status != HandedOff ==>
            c.VerifyCode? && c.id == id && Handle(db, env, c, now).error.None?
            && db.orders[id].status == ReadyForPickup)
  {
    OwnCommandKeepsLines(db, env, c, now, id);
    if c.SetCapacity? || c.ClearCapacity? || c.id != id {
      OthersLeaveAlone(db, env, c, now, id);
    } else {
      match c
      case Cancel(_) => CancelMoves(db, id, now);
      case Transition(_, to) => TransitionMoves(db, id, to, now);
      case IssueCode(_, code, ttl) => CodesMove(db, id, code, ttl, now);
      case VerifyCode(_, code) => CodesMove(db, id, code, 0, now);
      case _ =>
    }
  }

  /** How many of the events change the order's status. */
  function StatusChanges(db: Db, events: seq<Event>, id: nat): nat
    decreases |events|
  {
    if events == [] then 0
    else
      var db' := Handle(db, events[0].env, events[0].command, events[0].now).db;
      (if id in db.orders && id in db'.orders && db'.orders[id].status != db.orders[id].status then 1 else 0)
      + StatusChanges(db', events[1..], id)
  }

  /** From confirmation on, an order's type, slot and money never change, and its status changes at most four times. */
  lemma {:induction false} FrozenAfterConfirmation(db: Db, events: seq<Event>, id: nat)
    requires id in db.orders && !Mutable(db.orders[id].status)
    ensures
      var db' := Run(db, events);
      && id in db'.orders
      && var o, o' := db.orders[id], db'.orders[id];
      && !Mutable(o'.status)
      && o'.kind == o.kind && o'.slot == o.slot && o'.total == o.total && LinesOf(db', id) == LinesOf(db, id)
      && StatusChanges(db, events, id) + Rank(o'.status) <= Rank(o.status) <= 4
      && (Terminal(o.status) ==> o' == o)
    decreases |events|
  {
    if events != [] {
      var e := events[0];
      AfterConfirmation(db, e.env, e.command, e.now, id);
      FrozenAfterConfirmation(Handle(db, e.env, e.command, e.now).db, events[1..], id);
    }
  }

  /** No code works twice: once handed over, every further verification of any code is refused and changes nothing. */
  lemma NoSecondHandoff(db: Db, id: nat, code: string, now: int, events: seq<Event>, again: string, later: int)
    requires DoVerifyCode(db, id, code, now).error.None?
    ensures
      var db' := Run(DoVerifyCode(db, id, code, now).db, events);
      && id in db'.orders && db'.orders[id].status == HandedOff
      && DoVerifyCode(db', id, again, later) == Refuse(db', NotReady)
  {
    FrozenAfterConfirmation(DoVerifyCode(db, id, code, now).db, events, id);
  }

  // ---- Fees ----

  /**
   * The fee is none for pickup, and for delivery that of the active zone of the address's first five ZIP
   * characters.
   */
  ghost predicate FeeIsTheZones(env: Env, o: Order) {
    if o.kind == Pickup then o.fee == 0
    else
      && o.address.Some? && o.address.value in env.zips
      && var zip := env.zips[o.address.value];
      && var zone := if |zip| > 5 then zip[..5] else zip;
      && zone in env.fees && o.fee == env.fees[zone]
  }

  /** The order could not be delivered: no address, not one of the user's, or outside all active zones. */
  ghost predicate Undeliverable(env: Env, o: Order) {
    && o.kind == Delivery
    && (o.address.None? || o.address.value !in env.zips
        || (var zip := env.zips[o.address.value]; (if |zip| > 5 then zip[..5] else zip) !in env.fees))
  }

  /**
   * Quoting and confirming resolve the fee afresh: what they commit carries the current fee of the order's zone, and a
   * mutable order that has room is refused exactly when it cannot be delivered, which commits nothing.
   */
  lemma FeeIsResolvedAfresh(db: Db, env: Env, id: nat, now: int)
    requires id in db.orders && Mutable(db.orders[id].status) && HasCapacity(db, db.orders[id].slot, id)
    ensures DoQuote(db, env, id, now).error.None? <==> !Undeliverable(env, db.orders[id])
    ensures DoConfirm(db, env, id, now).error == DoQuote(db, env, id, now).error
    ensures DoQuote(db, env, id, now).error.None? ==> FeeIsTheZones(env, DoQuote(db, env, id, now).db.orders[id])
    ensures DoConfirm(db, env, id, now).error.None? ==> FeeIsTheZones(env, DoConfirm(db, env, id, now).db.orders[id])
    ensures DoConfirm(db, env, id, now).error.Some? ==>
      DoConfirm(db, env, id, now).db == DoQuote(db, env, id, now).db == db
  {
  }

  // ---- Orders without a code ----

  /** The order is past confirmation and holds no code. */
  ghost predicate Codeless(db: Db, id: nat) {
    id in db.orders && !Mutable(db.orders[id].status) && db.orders[id].codeHash.None?
  }

  lemma OwnCommandKeepsCodeless(db: Db, id: nat, to: Status, code: string, now: int)
    requires Codeless(db, id)
    ensures Codeless(DoCancel(db, id, now).db, id) && Codeless(DoTransition(db, id, to, now).db, id)
    ensures Codeless(DoVerifyCode(db, id, code, now).db, id)
  {
    CancelMoves(db, id, now);
    TransitionMoves(db, id, to, now);
    CodesMove(db, id, code, 0, now);
  }

  lemma OnlyIssuingGivesACode(db: Db, env: Env, c: Command, now: int, id: nat)
    requires Codeless(db, id) && !(c.IssueCode? && c.id == id)
    ensures Codeless(Handle(db, env, c, now).db, id)
  {
    if c.SetCapacity? || c.ClearCapacity? || c.id != id {
      OthersLeaveAlone(db, env, c, now, id);
    } else {
      match c
      case Cancel(_) => OwnCommandKeepsCodeless(db, id, Draft, "", now);
      case Transition(_, to) => OwnCommandKeepsCodeless(db, id, to, "", now);
      case VerifyCode(_, code) => OwnCommandKeepsCodeless(db, id, Draft, code, now);
      case _ =>
    }
  }

  ghost predicate IssuesNone(events: seq<Event>, id: nat) {
    forall i :: 0 <= i < |events| ==> !(events[i].command.IssueCode? && events[i].command.id == id)
  }

  lemma {:induction false} CodelessUntilIssued(db: Db, events: seq<Event>, id: nat)
    requires Codeless(db, id) && IssuesNone(events, id)
    ensures Codeless(Run(db, events), id)
    decreases |events|
  {
    if events != [] {
      var e := events[0];
      OnlyIssuingGivesACode(db, e.env, e.command, e.now, id);
      assert forall i :: 0 <= i < |events[1..]| ==> events[1..][i] == events[i + 1];
      CodelessUntilIssued(Handle(db, e.env, e.command, e.now).db, events[1..], id);
    }
  }

  /**
   * Becoming ready voids every earlier code: whatever happens next, no code at all is accepted before a new one is
   * issued.
   */
  lemma ReadyVoidsEarlierCodes(db: Db, id: nat, now: int, events: seq<Event>, code: string, later: int)
    requires DoTransition(db, id, ReadyForPickup, now).error.None? && IssuesNone(events, id)
    ensures
      var db' := Run(DoTransition(db, id, ReadyForPickup, now).db, events);
      DoVerifyCode(db', id, code, later).error.Some? && DoVerifyCode(db', id, code, later).db == db'
  {
    CodelessUntilIssued(DoTransition(db, id, ReadyForPickup, now).db, events, id);
  }

  // ---- Cancelled orders ----

  ghost predicate CancelledWithCode(db: Db, id: nat) {
    id in db.orders && db.orders[id].status == Cancelled && db.orders[id].codeHash.Some?
  }

  /** The fulfillment desk cancels an order that holds a code. */
  ghost predicate CancelsWithCode(db: Db, c: Command, now: int, id: nat) {
    && c == Transition(id, Cancelled) && DoTransition(db, id, Cancelled, now).error.None?
    && db.orders[id].codeHash.Some?
  }

  lemma OwnCancellations(db: Db, id: nat, to: Status, now: int)
    requires id in db.orders
    ensures CancelledWithCode(DoCancel(db, id, now).db, id) <==> CancelledWithCode(db, id)
    ensures CancelledWithCode(DoTransition(db, id, to, now).db, id) <==>
            CancelledWithCode(db, id) || CancelsWithCode(db, Transition(id, to), now, id)
  {
  }

  lemma OwnOtherCommands(db: Db, env: Env, c: Command, now: int, id: nat)
    requires id in db.orders && !c.SetCapacity? && !c.ClearCapacity? && !c.Cancel? && !c.Transition? && c.id == id
    ensures CancelledWithCode(Handle(db, env, c, now).db, id) <==> CancelledWithCode(db, id)
  {
    if Mutable(db.orders[id].status) {
      if (c.Create? || c.Update?) && DraftFee(env, c.draft).Ok? {
        DraftedOk(db, env, id, db.orders[id], c.draft, DraftFee(env, c.draft).value);
      }
    } else {
      AfterConfirmation(db, env, c, now, id);
      match c
      case IssueCode(_, code, ttl) => CodesMove(db, id, code, ttl, now);
      case VerifyCode(_, code) => CodesMove(db, id, code, 0, now);
      case _ =>
    }
  }

  /**
   * A handler leaves an order cancelled with a code still stored exactly when it was so before, or the desk
   * cancels it now with a code.
   */
  lemma CancelledWithCodeIff(db: Db, env: Env, c: Command, now: int, id: nat)
    requires id in db.orders
    ensures CancelledWithCode(Handle(db, env, c, now).db, id) <==>
      CancelledWithCode(db, id) || CancelsWithCode(db, c, now, id)
  {
    if c.SetCapacity? || c.ClearCapacity? || c.id != id {
      OthersLeaveAlone(db, env, c, now, id);
    } else if c.Cancel? || c.Transition? {
      OwnCancellations(db, id, if c.Transition? then c.target else Draft, now);
    } else {
      OwnOtherCommands(db, env, c, now, id);
    }
  }

  /** A cancelled order is never handed over, whatever code it holds. */
  lemma CancelledIsNeverHandedOver(db: Db, events: seq<Event>, id: nat, code: string, now: int)
    requires id in db.orders && db.orders[id].status == Cancelled
    ensures var db' := Run(db, events);
      DoVerifyCode(db', id, code, now).error.Some? && DoVerifyCode(db', id, code, now).db == db'
  {
    FrozenAfterConfirmation(db, events, id);
  }

  /** Only the stored expiry of order `id`'s quote differs. */
  ghost predicate SameButExpiry(a: Db, b: Db, id: nat) {
    && id in a.orders && id in b.orders
    && b == PutOrder(a, id, a.orders[id].(quoteExpiresAt := b.orders[id].quoteExpiresAt))
  }

  lemma PutTwice(db: Db, id: nat, first: Order, second: Order)
    ensures PutOrder(PutOrder(db, id, first), id, second) == PutOrder(db, id, second)
  {
    assert db.orders[id := first][id := second] == db.orders[id := second];
  }

  lemma RoomIgnoresExpiry(db: Db, id: nat, expiry: Option<int>, slot: int)
    requires id in db.orders
    ensures HasCapacity(PutOrder(db, id, db.orders[id].(quoteExpiresAt := expiry)), slot, id) ==
      HasCapacity(db, slot, id)
  {
    assert Seated(PutOrder(db, id, db.orders[id].(quoteExpiresAt := expiry)).orders, slot) == Seated(db.orders, slot);
  }

  lemma RepriceIgnoresExpiry(db: Db, other: Db, env: Env, id: nat)
    requires id in db.orders && id in other.orders && other.lines == db.lines
    requires other.orders[id] == db.orders[id].(quoteExpiresAt := other.orders[id].quoteExpiresAt)
    requires HasCapacity(other, db.orders[id].slot, id) == HasCapacity(db, db.orders[id].slot, id)
    ensures Reprice(other, env, id).Ok? <==> Reprice(db, env, id).Ok?
    ensures Reprice(db, env, id).Ok? ==>
              Reprice(other, env, id).value ==
                Reprice(db, env, id).value.(quoteExpiresAt := other.orders[id].quoteExpiresAt)
    ensures Reprice(db, env, id).Rejected? ==>
              var a, b := Reprice(db, env, id).error, Reprice(other, env, id).error;
              && a.error == b.error && a.error.Some?
              && (|| (a.db == db && b.db == other)
                  || (a.db == PutOrder(db, id, InConflict(db.orders[id]))
                      && b.db == PutOrder(other, id, InConflict(other.orders[id]))))
  {
  }

  lemma ConflictIgnoresExpiry(db: Db, id: nat, expiry: Option<int>)
    requires id in db.orders
    ensures
      var o := db.orders[id];
      var p := o.(quoteExpiresAt := expiry);
      SameButExpiry(PutOrder(db, id, InConflict(o)), PutOrder(PutOrder(db, id, p), id, InConflict(p)), id)
  {
    var o := db.orders[id];
    PutTwice(db, id, o.(quoteExpiresAt := expiry), InConflict(o).(quoteExpiresAt := expiry));
    PutTwice(db, id, InConflict(o), InConflict(o).(quoteExpiresAt := expiry));
  }

  /** Confirming does not depend on when the quote expired: the answer is the same, and so is what a success commits. */
  lemma ConfirmIgnoresQuoteExpiry(db: Db, env: Env, id: nat, expiry: Option<int>, now: int)
    requires id in db.orders
    ensures
      var other := PutOrder(db, id, db.orders[id].(quoteExpiresAt := expiry));
      var a, b := DoConfirm(db, env, id, now), DoConfirm(other, env, id, now);
      a.error == b.error && SameButExpiry(a.db, b.db, id) && (a.error.None? ==> a.db == b.db)
  {
    var o := db.orders[id];
    var other := PutOrder(db, id, o.(quoteExpiresAt := expiry));
    RoomIgnoresExpiry(db, id, expiry, o.slot);
    RepriceIgnoresExpiry(db, other, env, id);
    if Reprice(db, env, id).Ok? {
      var confirmed := AsConfirmed(Reprice(db, env, id).value, now);
      PutTwice(db, id, o.(quoteExpiresAt := expiry), confirmed);
      PutTwice(db, id, confirmed, confirmed);
    } else {
      ConflictIgnoresExpiry(db, id, expiry);
    }
  }
}
