/**
 * Slot capacity over whole runs: never overbooked when handlers are atomic, and by how much when confirmations race.
 */
module OrderCapacity {
  import opened Common
  import opened OrderModel
  import opened OrderLifecycle

  function Load(db: Db, slot: int): nat { |Seated(db.orders, slot)| }

  // ---- Atomic handlers ----

  /** An order newly seated at a slot was just confirmed, and there was room. */
  lemma NewlySeated(db: Db, env: Env, c: Command, now: int, slot: int, id: nat)
    requires id in Seated(Handle(db, env, c, now).db.orders, slot) && id !in Seated(db.orders, slot)
    ensures c == Confirm(id) && id in db.orders && db.orders[id].slot == slot && Load(db, slot) < CapacityOf(db, slot)
  {
    if id in db.orders && !Mutable(db.orders[id].status) {
      AfterConfirmation(db, env, c, now, id);
    } else if c.SetCapacity? || c.ClearCapacity? || c.id != id {
      if id in db.orders { OthersLeaveAlone(db, env, c, now, id); } else { NotCreatedByOthers(db, env, c, now, id); }
    } else {
      OwnSeat(db, env, c, now, slot);
    }
  }

  lemma NotCreatedByOthers(db: Db, env: Env, c: Command, now: int, id: nat)
    requires id !in db.orders && (c.SetCapacity? || c.ClearCapacity? || c.id != id)
    ensures id !in Handle(db, env, c, now).db.orders
  {
  }

  /** Drafting, quoting, cancelling and fulfilling seat nobody who was not seated. */
  lemma OwnSeat(db: Db, env: Env, c: Command, now: int, slot: int)
    requires !c.SetCapacity? && !c.ClearCapacity? && (c.id in db.orders ==> Mutable(db.orders[c.id].status))
    requires c.id in Seated(Handle(db, env, c, now).db.orders, slot)
    ensures c.Confirm? && c.id in db.orders && db.orders[c.id].slot == slot && Load(db, slot) < CapacityOf(db, slot)
  {
    if c.Create? || c.Update? {
      DraftingSeatsNobody(db, env, c, now);
    } else if c.Confirm? {
      ConfirmSeats(db, env, c.id, now, slot);
    } else {
      RestSeatNobody(db, env, c, now);
    }
  }

  lemma ConfirmSeats(db: Db, env: Env, id: nat, now: int, slot: int)
    requires id in db.orders ==> Mutable(db.orders[id].status)
    requires id in Seated(DoConfirm(db, env, id, now).db.orders, slot)
    ensures id in db.orders && db.orders[id].slot == slot && Load(db, slot) < CapacityOf(db, slot)
  {
    assert Seated(db.orders, slot) - {id} == Seated(db.orders, slot);
  }

  lemma RestSeatNobody(db: Db, env: Env, c: Command, now: int)
    requires !c.SetCapacity? && !c.ClearCapacity? && !c.Create? && !c.Update? && !c.Confirm?
    requires c.id in db.orders ==> Mutable(db.orders[c.id].status)
    ensures var after := Handle(db, env, c, now).db.orders; c.id in after ==> !Finalized(after[c.id].status)
  {
  }

  lemma DraftingSeatsNobody(db: Db, env: Env, c: Command, now: int)
    requires c.Create? || c.Update?
    requires c.id in db.orders ==> Mutable(db.orders[c.id].status)
    ensures var after := Handle(db, env, c, now).db.orders; c.id in after ==> Mutable(after[c.id].status)
  {
    var fee := DraftFee(env, c.draft);
    if fee.Ok? {
      DraftedOk(db, env, c.id, if c.Create? || c.id !in db.orders then BLANK else db.orders[c.id], c.draft, fee.value);
    }
  }

  lemma SeatsGrowByConfirmation(db: Db, env: Env, c: Command, now: int, slot: int)
    ensures
      var after := Load(Handle(db, env, c, now).db, slot);
      after <= Load(db, slot) || (after == Load(db, slot) + 1 && Load(db, slot) < CapacityOf(db, slot))
  {
    var before, after := Seated(db.orders, slot), Seated(Handle(db, env, c, now).db.orders, slot);
    if after <= before {
      SubsetSize(after, before);
    } else {
      var id :| id in after && id !in before;
      NewlySeated(db, env, c, now, slot, id);
      forall x | x in after && x !in before ensures x == id { NewlySeated(db, env, c, now, slot, x); }
      SubsetSize(after, before + {id});
    }
  }

  /** Throughout the run the slot's capacity stays at or below `most`. */
  ghost predicate CapacityAtMost(db: Db, events: seq<Event>, slot: int, most: nat)
    decreases |events|
  {
    && CapacityOf(db, slot) <= most
    && (events != [] ==>
        CapacityAtMost(Handle(db, events[0].env, events[0].command, events[0].now).db, events[1..], slot, most))
  }

  /** However capacities are changed along the way, a slot is never booked beyond the largest capacity it has had. */
  lemma {:induction false} NeverOverbooked(db: Db, events: seq<Event>, slot: int, most: nat)
    requires Load(db, slot) <= most && CapacityAtMost(db, events, slot, most)
    ensures Load(Run(db, events), slot) <= most
    decreases |events|
  {
    if events != [] {
      var e := events[0];
      SeatsGrowByConfirmation(db, e.env, e.command, e.now, slot);
      NeverOverbooked(Handle(db, e.env, e.command, e.now).db, events[1..], slot, most);
    }
  }

  ghost predicate NoCapacityChanges(events: seq<Event>) {
    forall i :: 0 <= i < |events| ==> !events[i].command.SetCapacity? && !events[i].command.ClearCapacity?
  }

  /** With capacities left alone, no slot ever has more finalized orders than its capacity. */
  lemma {:induction false} ConstantCapacityIsKept(db: Db, events: seq<Event>, slot: int)
    requires Load(db, slot) <= CapacityOf(db, slot) && NoCapacityChanges(events)
    ensures Load(Run(db, events), slot) <= CapacityOf(Run(db, events), slot) == CapacityOf(db, slot)
    decreases |events|
  {
    if events != [] {
      var e := events[0];
      SeatsGrowByConfirmation(db, e.env, e.command, e.now, slot);
      OtherCommandsKeepCapacity(db, e.env, e.command, e.now);
      ConstantCapacityIsKept(Handle(db, e.env, e.command, e.now).db, events[1..], slot);
    }
  }

  lemma OtherCommandsKeepCapacity(db: Db, env: Env, c: Command, now: int)
    requires !c.SetCapacity? && !c.ClearCapacity?
    ensures Handle(db, env, c, now).db.capacity == db.capacity
  {
  }

  /**
   * A mutable order is turned away for lack of room exactly when its slot is at or over capacity, however it got
   * there; otherwise a confirmation seats one more.
   */
  lemma ConfirmNeedsRoom(db: Db, env: Env, id: nat, now: int)
    requires id in db.orders && Mutable(db.orders[id].status)
    ensures
      var slot := db.orders[id].slot;
      var reply := DoConfirm(db, env, id, now);
      && (reply.error == Some(SlotFull) <==> Load(db, slot) >= CapacityOf(db, slot))
      && (reply.error == Some(SlotFull) ==>
          reply.db.orders[id].status == Conflict && Seated(reply.db.orders, slot) == Seated(db.orders, slot))
      && (reply.error == None ==> Seated(reply.db.orders, slot) == Seated(db.orders, slot) + {id})
      && (reply.error == None ==> Load(reply.db, slot) <= CapacityOf(db, slot))
  {
    var o := db.orders[id];
    assert Seated(db.orders, o.slot) - {id} == Seated(db.orders, o.slot);
    if Load(db, o.slot) >= CapacityOf(db, o.slot) {
      ConflictSeatsNobody(db, id);
    } else {
      var reply := DoConfirm(db, env, id, now);
      assert reply.error != Some(SlotFull);
      if reply.error == None { ConfirmedIsSeated(db, reply.db, id); }
    }
  }

  lemma ConflictSeatsNobody(db: Db, id: nat)
    requires id in db.orders && Mutable(db.orders[id].status)
    ensures Seated(PutOrder(db, id, InConflict(db.orders[id])).orders, db.orders[id].slot) ==
      Seated(db.orders, db.orders[id].slot)
  {
  }

  lemma ConfirmedIsSeated(db: Db, db': Db, id: nat)
    requires id in db.orders && id in db'.orders && db'.orders == db.orders[id := db'.orders[id]]
    requires db'.orders[id].status == Confirmed && db'.orders[id].slot == db.orders[id].slot
    ensures Seated(db'.orders, db.orders[id].slot) == Seated(db.orders, db.orders[id].slot) + {id}
  {
  }

  /**
   * Setting a slot's capacity is all that changes, whatever was set before, and clearing it gives the slot the default
   * again. Neither takes a seat from anyone, and neither does anything for a time that is no slot.
   */
  lemma CapacityRoundTrip(db: Db, slot: int, seats: nat)
    requires Aligned(slot)
    ensures
      var after := DoSetCapacity(db, slot, seats).db;
      var cleared := DoClearCapacity(after, slot);
      && CapacityOf(after, slot) == seats
      && (forall s :: s != slot ==> CapacityOf(after, s) == CapacityOf(cleared.db, s) == CapacityOf(db, s))
      && cleared.error == None && CapacityOf(cleared.db, slot) == DEFAULT_SLOT_CAPACITY
      && DoClearCapacity(cleared.db, slot).error == Some(NotFound)
      && (forall s :: Seated(after.orders, s) == Seated(cleared.db.orders, s) == Seated(db.orders, s))
      && (slot !in db.capacity ==> cleared.db == db)
  {
    var after := DoSetCapacity(db, slot, seats).db;
    assert slot !in db.capacity ==> after.capacity - {slot} == db.capacity;
  }

  // ---- Racing confirmations ----

  /** Confirmations that have passed their capacity check and not committed yet. */
  datatype World = World(db: Db, inFlight: set<nat>)

  datatype RaceStep = CheckSlot(id: nat) | CommitConfirm(id: nat, env: Env, now: int) | Other(event: Event)

  /**
   * The check excludes the order itself. Other handlers stay away from orders in flight; a whole confirmation is a
   * check and a commit.
   */
  predicate Enabled(w: World, s: RaceStep) {
    match s
    case CheckSlot(id) =>
      && id in w.db.orders && id !in w.inFlight && Mutable(w.db.orders[id].status)
      && HasCapacity(w.db, w.db.orders[id].slot, id)
    case CommitConfirm(id, _, _) => id in w.inFlight && id in w.db.orders
    case Other(e) =>
      && !e.command.Confirm?
      && (e.command.SetCapacity? || e.command.ClearCapacity? || e.command.id !in w.inFlight)
  }

  /** The rest of a confirmation: the fee may still be refused, which commits nothing. */
  function Committed(db: Db, env: Env, id: nat, now: int): Db
    requires id in db.orders
  {
    var o := db.orders[id];
    match FeeFor(env, o.kind, o.address)
    case Rejected(_) => db
    case Ok(fee) => PutOrder(db, id, AsConfirmed(WithMoney(o, LinesOf(db, id), fee), now))
  }

  function Next(w: World, s: RaceStep): World
    requires Enabled(w, s)
  {
    match s
    case CheckSlot(id) => w.(inFlight := w.inFlight + {id})
    case CommitConfirm(id, env, now) => World(Committed(w.db, env, id, now), w.inFlight - {id})
    case Other(e) => w.(db := Handle(w.db, e.env, e.command, e.now).db)
  }

  /** A check followed by its commit is the atomic handler's success path. */
  lemma CheckAndCommitIsConfirm(db: Db, env: Env, id: nat, now: int)
    requires Enabled(World(db, {}), CheckSlot(id))
    ensures Next(Next(World(db, {}), CheckSlot(id)), CommitConfirm(id, env, now)) ==
      World(DoConfirm(db, env, id, now).db, {})
  {
  }

  function RaceRun(w: World, steps: seq<RaceStep>): World
    decreases |steps|
  {
    if steps == [] then w
    else if Enabled(w, steps[0]) then RaceRun(Next(w, steps[0]), steps[1..])
    else RaceRun(w, steps[1..])
  }

  /** Along the run at most `k` confirmations are in flight and the slot's capacity is at most `most`. */
  ghost predicate Bounded(w: World, steps: seq<RaceStep>, slot: int, most: nat, k: nat)
    decreases |steps|
  {
    && CapacityOf(w.db, slot) <= most && |w.inFlight| <= k
    && (steps != [] ==> Bounded(if Enabled(w, steps[0]) then Next(w, steps[0]) else w, steps[1..], slot, most, k))
  }

  function Waiting(w: World, slot: int): set<nat>
  {
    set id | id in w.inFlight && id in w.db.orders && w.db.orders[id].slot == slot
  }

  ghost predicate RaceInv(w: World, slot: int, most: nat, k: nat) {
    && (forall id :: id in w.inFlight ==> id in w.db.orders && Mutable(w.db.orders[id].status))
    && Load(w.db, slot) + |Waiting(w, slot)| <= most + k - 1
  }

  lemma CheckKeeps(w: World, id: nat, slot: int, most: nat, k: nat)
    requires RaceInv(w, slot, most, k) && Enabled(w, CheckSlot(id)) && CapacityOf(w.db, slot) <= most
      && |w.inFlight + {id}| <= k
    ensures RaceInv(Next(w, CheckSlot(id)), slot, most, k)
  {
    var w' := Next(w, CheckSlot(id));
    if w.db.orders[id].slot == slot {
      assert Seated(w.db.orders, slot) - {id} == Seated(w.db.orders, slot);
      SubsetSize(Waiting(w', slot), w'.inFlight);
    } else {
      assert Waiting(w', slot) == Waiting(w, slot);
    }
  }

  lemma CommitKeeps(w: World, id: nat, env: Env, now: int, slot: int, most: nat, k: nat)
    requires RaceInv(w, slot, most, k) && Enabled(w, CommitConfirm(id, env, now))
    ensures RaceInv(Next(w, CommitConfirm(id, env, now)), slot, most, k)
  {
    var w' := Next(w, CommitConfirm(id, env, now));
    var o := w.db.orders[id];
    if o.slot == slot {
      assert Waiting(w', slot) == Waiting(w, slot) - {id};
      SubsetSize(Seated(w'.db.orders, slot), Seated(w.db.orders, slot) + {id});
    } else {
      assert Waiting(w', slot) == Waiting(w, slot);
      assert Seated(w'.db.orders, slot) == Seated(w.db.orders, slot);
    }
  }

  lemma OtherKeeps(w: World, e: Event, slot: int, most: nat, k: nat)
    requires RaceInv(w, slot, most, k) && Enabled(w, Other(e))
    ensures RaceInv(Next(w, Other(e)), slot, most, k)
  {
    var w' := Next(w, Other(e));
    forall id | id in w.inFlight
      ensures id in w'.db.orders && w'.db.orders[id] == w.db.orders[id]
    {
      OthersLeaveAlone(w.db, e.env, e.command, e.now, id);
    }
    assert Waiting(w', slot) == Waiting(w, slot);
    forall id | id in Seated(w'.db.orders, slot)
      ensures id in Seated(w.db.orders, slot)
    {
      if id !in Seated(w.db.orders, slot) { NewlySeated(w.db, e.env, e.command, e.now, slot, id); }
    }
    SubsetSize(Seated(w'.db.orders, slot), Seated(w.db.orders, slot));
  }

  lemma {:induction false} RaceKeeps(w: World, steps: seq<RaceStep>, slot: int, most: nat, k: nat)
    requires RaceInv(w, slot, most, k) && Bounded(w, steps, slot, most, k)
    ensures RaceInv(RaceRun(w, steps), slot, most, k)
    decreases |steps|
  {
    if steps != [] {
      if Enabled(w, steps[0]) {
        var w' := Next(w, steps[0]);
        assert Bounded(w', steps[1..], slot, most, k);
        match steps[0] {
          case CheckSlot(id) => CheckKeeps(w, id, slot, most, k);
          case CommitConfirm(id, env, now) => CommitKeeps(w, id, env, now, slot, most, k);
          case Other(e) => OtherKeeps(w, e, slot, most, k);
        }
        RaceKeeps(w', steps[1..], slot, most, k);
      } else {
        RaceKeeps(w, steps[1..], slot, most, k);
      }
    }
  }

  /** With at most `k` confirmations between check and commit at a time, a slot is overbooked by at most `k - 1`. */
  lemma OverbookingIsBounded(db: Db, steps: seq<RaceStep>, slot: int, most: nat, k: nat)
    requires k >= 1 && Load(db, slot) <= most && Bounded(World(db, {}), steps, slot, most, k)
    ensures Load(RaceRun(World(db, {}), steps).db, slot) <= most + k - 1
  {
    assert Waiting(World(db, {}), slot) == {};
    RaceKeeps(World(db, {}), steps, slot, most, k);
  }

  // ---- The bound is reached ----

  function Checks(ids: seq<nat>): seq<RaceStep> { if ids == [] then [] else [CheckSlot(ids[0])] + Checks(ids[1..]) }

  function Commits(ids: seq<nat>, env: Env, now: int): seq<RaceStep> {
    if ids == [] then [] else [CommitConfirm(ids[0], env, now)] + Commits(ids[1..], env, now)
  }

  ghost predicate Distinct(ids: seq<nat>) { forall i, j :: 0 <= i < j < |ids| ==> ids[i] != ids[j] }

  /** Pickup orders, not confirmed yet, all for the slot. */
  ghost predicate Candidates(db: Db, ids: seq<nat>, slot: int) {
    && Distinct(ids)
    && forall i :: 0 <= i < |ids| ==>
        && ids[i] in db.orders && Mutable(db.orders[ids[i]].status)
        && db.orders[ids[i]].kind == Pickup && db.orders[ids[i]].slot == slot
  }

  lemma {:induction false} RunConcat(w: World, a: seq<RaceStep>, b: seq<RaceStep>)
    ensures RaceRun(w, a + b) == RaceRun(RaceRun(w, a), b)
    decreases |a|
  {
    if a == [] {
      assert a + b == b;
    } else {
      assert (a + b)[1..] == a[1..] + b;
      RunConcat(if Enabled(w, a[0]) then Next(w, a[0]) else w, a[1..], b);
    }
  }

  lemma CheckPasses(w: World, id: nat, slot: int)
    requires id in w.db.orders && id !in w.inFlight && Mutable(w.db.orders[id].status) && w.db.orders[id].slot == slot
    requires Load(w.db, slot) < CapacityOf(w.db, slot)
    ensures Enabled(w, CheckSlot(id)) && Next(w, CheckSlot(id)) == World(w.db, w.inFlight + {id})
  {
    assert Seated(w.db.orders, slot) - {id} == Seated(w.db.orders, slot);
  }

  function ToSet(ids: seq<nat>): set<nat> { set x | x in ids }

  lemma RunFirst(w: World, s: RaceStep, rest: seq<RaceStep>)
    requires Enabled(w, s)
    ensures RaceRun(w, [s] + rest) == RaceRun(Next(w, s), rest)
  {
    assert ([s] + rest)[1..] == rest;
  }

  lemma {:induction false} ChecksAllPass(w: World, ids: seq<nat>, slot: int)
    requires Candidates(w.db, ids, slot) && Load(w.db, slot) < CapacityOf(w.db, slot)
    requires forall i :: 0 <= i < |ids| ==> ids[i] !in w.inFlight
    ensures RaceRun(w, Checks(ids)) == World(w.db, w.inFlight + ToSet(ids))
    decreases |ids|
  {
    if ids == [] {
      assert w.inFlight + ToSet(ids) == w.inFlight;
    } else {
      var rest := World(w.db, w.inFlight + {ids[0]});
      CheckPasses(w, ids[0], slot);
      forall i | 0 <= i < |ids| - 1
        ensures ids[1..][i] !in rest.inFlight
      {
        assert ids[1..][i] == ids[i + 1] != ids[0];
      }
      ChecksAllPass(rest, ids[1..], slot);
      RunFirst(w, CheckSlot(ids[0]), Checks(ids[1..]));
      assert rest.inFlight + ToSet(ids[1..]) == w.inFlight + ToSet(ids);
    }
  }

  lemma CommitSeats(w: World, id: nat, env: Env, now: int, slot: int)
    requires id in w.inFlight && id in w.db.orders && Mutable(w.db.orders[id].status) && w.db.orders[id].kind == Pickup
      && w.db.orders[id].slot == slot
    ensures
      var w' := Next(w, CommitConfirm(id, env, now));
      && w'.inFlight == w.inFlight - {id} && id in w'.db.orders && w'.db.orders == w.db.orders[id := w'.db.orders[id]]
      && Load(w'.db, slot) == Load(w.db, slot) + 1
  {
    var w' := Next(w, CommitConfirm(id, env, now));
    assert Seated(w'.db.orders, slot) == Seated(w.db.orders, slot) + {id};
  }

  lemma {:induction false} CommitsAllSeat(w: World, ids: seq<nat>, env: Env, now: int, slot: int)
    requires Candidates(w.db, ids, slot) && forall i :: 0 <= i < |ids| ==> ids[i] in w.inFlight
    ensures Load(RaceRun(w, Commits(ids, env, now)).db, slot) == Load(w.db, slot) + |ids|
    decreases |ids|
  {
    if ids != [] {
      var w' := Next(w, CommitConfirm(ids[0], env, now));
      CommitSeats(w, ids[0], env, now, slot);
      CommitsAllSeat(w', ids[1..], env, now, slot);
      RunFirst(w, CommitConfirm(ids[0], env, now), Commits(ids[1..], env, now));
    }
  }

  /** The bound is sharp: `k` confirmations that all check when one seat is left all commit. */
  lemma OverbookingHappens(db: Db, ids: seq<nat>, env: Env, now: int, slot: int)
    requires Candidates(db, ids, slot) && Load(db, slot) + 1 == CapacityOf(db, slot)
    ensures Load(RaceRun(World(db, {}), Checks(ids) + Commits(ids, env, now)).db, slot) ==
      CapacityOf(db, slot) + |ids| - 1
  {
    ChecksAllPass(World(db, {}), ids, slot);
    RunConcat(World(db, {}), Checks(ids), Commits(ids, env, now));
    CommitsAllSeat(World(db, {} + ToSet(ids)), ids, env, now, slot);
  }
}
