/**
 * The ordering and fulfillment handlers in their own, imperative form: they assign the fields of an order one after the
 * other and delete and insert its line rows. Each is proved to commit and answer what its description on values says.
 */
module OrderDesk {
  import opened Common
  import opened OrderModel

  const SCANNED_SLOTS: nat := 24
  const MOST_SUGGESTIONS: nat := 3

  /** The slot `j` quarter-hours after `slot`. */
  function SlotAfter(slot: int, j: int): int { slot + j * 15 * 60_000_000 }

  /** The slots with a seat left. */
  function Free(orders: map<nat, Order>, capacity: map<int, nat>, exclude: nat): int -> bool {
    x => HasCapacity(Db(orders, map[], capacity, map[]), x, exclude)
  }

  /** The suggestions are free slots of the scanned window, in order. */
  ghost predicate FreeSlotsInOrder(free: int -> bool, slot: int, window: nat, s: seq<int>) {
    && (forall i, k :: 0 <= i < k < |s| ==> s[i] < s[k])
    && (forall x :: x in s ==> free(x) && exists j :: 1 <= j <= window && x == SlotAfter(slot, j))
  }

  /** No free slot of the window that starts by `limit` is missing. */
  ghost predicate NoneSkipped(free: int -> bool, slot: int, window: nat, limit: int, s: seq<int>) {
    forall j :: 1 <= j <= window && free(SlotAfter(slot, j)) && SlotAfter(slot, j) <= limit ==> SlotAfter(slot, j) in s
  }

  /** `s` holds the earliest free slots of the window, `most` of them if there are that many. */
  ghost predicate Suggested(free: int -> bool, slot: int, most: nat, window: nat, s: seq<int>) {
    && |s| <= most
    && FreeSlotsInOrder(free, slot, window, s)
    && NoneSkipped(free, slot, window, if |s| == most > 0 then s[|s| - 1] else SlotAfter(slot, window), s)
  }

  /** Only one list of suggestions is right. */
  lemma SuggestionsAreDetermined(free: int -> bool, slot: int, most: nat, window: nat, s: seq<int>, t: seq<int>)
    requires most > 0 && Suggested(free, slot, most, window, s) && Suggested(free, slot, most, window, t)
    ensures s == t
  {
    SuggestionsAgree(free, slot, most, window, s, t, 0);
  }

  /** Two right lists that agree up to position `i` agree. */
  lemma {:induction false} SuggestionsAgree(free: int -> bool, slot: int, most: nat, window: nat, s: seq<int>,
      t: seq<int>, i: nat)
    requires most > 0 && Suggested(free, slot, most, window, s) && Suggested(free, slot, most, window, t)
    requires i <= |s| && i <= |t| && s[..i] == t[..i]
    ensures s == t
    decreases most - i
  {
    if i < |s| { NotSkipped(free, slot, most, window, s, t, i); }
    if i < |t| { NotSkipped(free, slot, most, window, t, s, i); }
    if i < |s| {
      assert s[..i + 1] == t[..i + 1];
      SuggestionsAgree(free, slot, most, window, s, t, i + 1);
    }
  }

  /** A list agreeing with `s` up to position `i` continues with something no later than `s[i]`. */
  lemma NotSkipped(free: int -> bool, slot: int, most: nat, window: nat, s: seq<int>, t: seq<int>, i: nat)
    requires most > 0 && Suggested(free, slot, most, window, s) && Suggested(free, slot, most, window, t)
    requires i < |s| && i <= |t| && s[..i] == t[..i]
    ensures i < |t| && t[i] <= s[i]
  {
    assert s[i] in s;
    var j :| 1 <= j <= window && s[i] == SlotAfter(slot, j);
    if |t| < most || s[i] <= t[|t| - 1] {
      assert SlotAfter(slot, j) in t;
      var k :| 0 <= k < |t| && t[k] == s[i];
      assert forall m :: 0 <= m < i ==> t[m] == t[..i][m] == s[m] < s[i];
    }
  }

  /** Suggestions for an aligned slot are aligned; from twenty-four slots they lie within six hours. */
  lemma SuggestionsAreAligned(free: int -> bool, slot: int, most: nat, s: seq<int>)
    requires Suggested(free, slot, most, SCANNED_SLOTS, s) && Aligned(slot)
    ensures forall x :: x in s ==> Aligned(x) && slot < x <= slot + 6 * 60 * MINUTE
  {
    forall x | x in s
      ensures Aligned(x) && slot < x <= slot + 6 * 60 * MINUTE
    {
      var j :| 1 <= j <= SCANNED_SLOTS && x == SlotAfter(slot, j);
    }
  }

  /** What scanning the window's next slot does to the list. */
  function Scanned(free: int -> bool, slot: int, i: nat, s: seq<int>): seq<int> {
    if free(SlotAfter(slot, i + 1)) then s + [SlotAfter(slot, i + 1)] else s
  }

  function Scan(free: int -> bool, slot: int, i: nat): seq<int> {
    if i == 0 then [] else Scanned(free, slot, i - 1, Scan(free, slot, i - 1))
  }

  ghost predicate ScannedUpTo(free: int -> bool, slot: int, i: nat, s: seq<int>) {
    FreeSlotsInOrder(free, slot, i, s) && NoneSkipped(free, slot, i, SlotAfter(slot, i), s)
  }

  lemma ScanKeepsOrder(free: int -> bool, slot: int, i: nat, s: seq<int>)
    requires FreeSlotsInOrder(free, slot, i, s)
    ensures FreeSlotsInOrder(free, slot, i + 1, Scanned(free, slot, i, s))
  {
    var next := SlotAfter(slot, i + 1);
    var s' := Scanned(free, slot, i, s);
    forall x | x in s'
      ensures free(x) && exists j :: 1 <= j <= i + 1 && x == SlotAfter(slot, j)
    {
      if x in s {
        var j :| 1 <= j <= i && x == SlotAfter(slot, j);
        assert 1 <= j <= i + 1;
      }
    }
    forall k | 0 <= k < |s|
      ensures s[k] < next
    {
      assert s[k] in s;
      var j :| 1 <= j <= i && s[k] == SlotAfter(slot, j);
    }
  }

  lemma ScanSkipsNone(free: int -> bool, slot: int, i: nat, s: seq<int>)
    requires ScannedUpTo(free, slot, i, s)
    ensures NoneSkipped(free, slot, i + 1, SlotAfter(slot, i + 1), Scanned(free, slot, i, s))
  {
    var s' := Scanned(free, slot, i, s);
    forall j | 1 <= j <= i + 1 && free(SlotAfter(slot, j))
      ensures SlotAfter(slot, j) in s'
    {
      if j == i + 1 { assert s'[|s'| - 1] == SlotAfter(slot, j); }
    }
  }

  lemma {:induction false} ScanFindsThem(free: int -> bool, slot: int, i: nat)
    ensures ScannedUpTo(free, slot, i, Scan(free, slot, i))
  {
    if i > 0 {
      ScanFindsThem(free, slot, i - 1);
      ScanKeepsOrder(free, slot, i - 1, Scan(free, slot, i - 1));
      ScanSkipsNone(free, slot, i - 1, Scan(free, slot, i - 1));
    }
  }

  /** A scan that has found `most` slots, the last one just now, may stop; so may one that has come to the end. */
  lemma ScanMayStop(free: int -> bool, slot: int, most: nat, window: nat, i: nat)
    requires most > 0 && i <= window
    requires
      var s := Scan(free, slot, i);
      if i < window then |s| == most && s[most - 1] == SlotAfter(slot, i)
      else |s| < most || (|s| == most && s[most - 1] == SlotAfter(slot, i))
    ensures Suggested(free, slot, most, window, Scan(free, slot, i))
  {
    var s := Scan(free, slot, i);
    ScanFindsThem(free, slot, i);
    forall x | x in s
      ensures free(x) && exists j :: 1 <= j <= window && x == SlotAfter(slot, j)
    {
      var j :| 1 <= j <= i && x == SlotAfter(slot, j);
      assert 1 <= j <= window;
    }
  }

  /** Scans slot by slot; `free` is the capacity check. */
  method SuggestNextAvailableSlots(free: int -> bool, slot: int, most: nat, window: nat) returns (suggestions: seq<int>)
    requires most > 0
    ensures Suggested(free, slot, most, window, suggestions)
  {
    suggestions := [];
    var current := slot + SLOT_LENGTH;
    for i := 0 to window
      invariant current == SlotAfter(slot, i + 1)
      invariant suggestions == Scan(free, slot, i) && |suggestions| < most
    {
      if free(current) {
        suggestions := suggestions + [current];
        if |suggestions| >= most {
          ScanMayStop(free, slot, most, window, i + 1);
          return;
        }
      }
      current := current + SLOT_LENGTH;
    }
    ScanMayStop(free, slot, most, window, window);
  }

  function Items(lines: seq<LineRequest>): set<string> { set l | l in lines :: l.item }

  class Desk {
    var orders: map<nat, Order>
    var lines: map<nat, seq<Line>>
    var capacity: map<int, nat>
    ghost var issued: map<nat, seq<Issue>>

    ghost function Contents(): Db
      reads this
    {
      Db(orders, lines, capacity, issued)
    }

    constructor ()
      ensures Contents() == EMPTY
    {
      orders, lines, capacity, issued := map[], map[], map[], map[];
    }

    // ---- Slots ----

    method UpsertSlotCapacity(slot: int, seats: nat) returns (error: Option<OrderError>)
      modifies this
      ensures Reply(Contents(), error) == DoSetCapacity(old(Contents()), slot, seats)
      ensures error.None? <==> Aligned(slot)
      ensures forall s ::
        CapacityOf(Contents(), s) == if s == slot && error.None? then seats else CapacityOf(old(Contents()), s)
    {
      if slot % SLOT_LENGTH != 0 {
        return Some(Misaligned);
      }
      capacity := capacity[slot := seats];
      return None;
    }

    method DeleteSlotCapacity(slot: int) returns (error: Option<OrderError>)
      modifies this
      ensures Reply(Contents(), error) == DoClearCapacity(old(Contents()), slot)
      ensures error.None? <==> Aligned(slot) && slot in old(capacity)
      ensures forall s ::
        CapacityOf(Contents(), s) ==
          if s == slot && error.None? then DEFAULT_SLOT_CAPACITY else CapacityOf(old(Contents()), s)
    {
      if slot % SLOT_LENGTH != 0 {
        return Some(Misaligned);
      }
      if slot !in capacity {
        return Some(NotFound);
      }
      capacity := capacity - {slot};
      return None;
    }

    // ---- Drafts ----

    method ValidateLineItems(requested: seq<LineRequest>) returns (error: Option<OrderError>)
      ensures error ==
        (if requested == [] then Some(NoLines) else if !DistinctItems(requested) then Some(DuplicateItem) else None)
    {
      if requested == [] {
        return Some(NoLines);
      }
      var seen: set<string> := {};
      for i := 0 to |requested|
        invariant forall item :: item in seen <==> exists k :: 0 <= k < i && requested[k].item == item
        invariant forall j, k :: 0 <= j < k < i ==> requested[j].item != requested[k].item
      {
        if requested[i].item in seen {
          return Some(DuplicateItem);
        }
        seen := seen + {requested[i].item};
      }
      return None;
    }

    /** As many rows are found as items were asked for. */
    method MenuItemsAreValid(menu: map<string, nat>, requested: seq<LineRequest>) returns (valid: bool)
      ensures valid <==> forall i :: 0 <= i < |requested| ==> requested[i].item in menu
    {
      var asked := Items(requested);
      var found := set item | item in asked && item in menu;
      valid := |found| == |asked|;
      if valid {
        SubsetOfSameSize(found, asked);
      }
      assert forall i :: 0 <= i < |requested| ==> requested[i] in requested && requested[i].item in asked;
      assert (forall i :: 0 <= i < |requested| ==> requested[i].item in menu) ==> found == asked;
    }

    method ResolveDeliveryFee(env: Env, kind: OrderType, address: Option<nat>) returns (fee: Outcome<nat, OrderError>)
      ensures fee == FeeFor(env, kind, address)
    {
      if kind == Pickup {
        return Ok(0);
      }
      if address.None? {
        return Rejected(AddressMissing);
      }
      if address.value !in env.zips {
        return Rejected(AddressNotFound);
      }
      var zip := env.zips[address.value];
      var key := if |zip| > 5 then zip[..5] else zip;
      if key !in env.fees {
        return Rejected(OutsideZones);
      }
      return Ok(env.fees[key]);
    }

    method CheckDraft(env: Env, d: DraftRequest) returns (fee: Outcome<nat, OrderError>)
      ensures fee == DraftFee(env, d)
    {
      var error := ValidateLineItems(d.lines);
      if error.Some? {
        return Rejected(error.value);
      }
      if d.slot % SLOT_LENGTH != 0 {
        return Rejected(Misaligned);
      }
      var valid := MenuItemsAreValid(env.menu, d.lines);
      if !valid {
        return Rejected(BadMenuItem);
      }
      fee := ResolveDeliveryFee(env, d.kind, d.address);
    }

    /** Deletes the order's rows and inserts one for each requested line. */
    method PopulateLineItems(id: nat, requested: seq<LineRequest>, menu: map<string, nat>)
      requires forall i :: 0 <= i < |requested| ==> requested[i].item in menu
      modifies `lines
      ensures lines == old(lines)[id := Priced(menu, requested)]
    {
      lines := lines[id := []];
      for i := 0 to |requested|
        invariant lines == old(lines)[id := Priced(menu, requested[..i])]
      {
        var l := requested[i];
        var price := menu[l.item];
        assert requested[..i + 1][..i] == requested[..i];
        lines := lines[id := lines[id] + [Line(l.item, l.quantity, price, price * l.quantity)]];
      }
      assert requested[..|requested|] == requested;
    }

    method WriteDraft(env: Env, id: nat, d: DraftRequest, fee: nat)
      requires id in orders && forall i :: 0 <= i < |d.lines| ==> d.lines[i].item in env.menu
      modifies this
      ensures Contents() == Drafted(old(Contents()), env, id, old(orders)[id], d, fee)
    {
      var address := if d.kind == Pickup then None else d.address;
      orders := orders[id := orders[id].(kind := d.kind, slot := d.slot, address := address, fee := fee)];
      orders := orders[id := orders[id].(status := Draft, conflictReason := None, quoteExpiresAt := None)];
      PopulateLineItems(id, d.lines, env.menu);
      orders := orders[id := orders[id].(subtotal := Sum(lines[id]))];
      orders := orders[id := orders[id].(total := orders[id].subtotal + orders[id].fee)];
    }

    method CreateOrderDraft(env: Env, id: nat, d: DraftRequest) returns (error: Option<OrderError>)
      requires id !in orders
      modifies this
      ensures Reply(Contents(), error) == DoCreate(old(Contents()), env, id, d)
    {
      var fee := CheckDraft(env, d);
      if fee.Rejected? {
        return Some(fee.error);
      }
      orders := orders[id := BLANK];
      WriteDraft(env, id, d, fee.value);
      return None;
    }

    method UpdateOrderDraft(env: Env, id: nat, d: DraftRequest) returns (error: Option<OrderError>)
      modifies this
      ensures Reply(Contents(), error) == DoUpdate(old(Contents()), env, id, d)
    {
      if id !in orders {
        return Some(NotFound);
      }
      if !Mutable(orders[id].status) {
        return Some(NotMutable);
      }
      var fee := CheckDraft(env, d);
      if fee.Rejected? {
        return Some(fee.error);
      }
      WriteDraft(env, id, d, fee.value);
      return None;
    }

    // ---- Quote, confirm, cancel ----

    method IsSlotCapacityConflict(slot: int, exclude: nat) returns (conflict: bool, next: seq<int>)
      ensures conflict == !HasCapacity(Contents(), slot, exclude)
      ensures conflict ==> Suggested(Free(orders, capacity, exclude), slot, MOST_SUGGESTIONS, SCANNED_SLOTS, next)
    {
      next := [];
      conflict := !HasCapacity(Db(orders, map[], capacity, map[]), slot, exclude);
      if conflict {
        next := SuggestNextAvailableSlots(Free(orders, capacity, exclude), slot, MOST_SUGGESTIONS, SCANNED_SLOTS);
      }
    }

    /** A full slot puts the order in conflict, which is committed, and proposes other slots. */
    method QuoteOrRaiseConflict(id: nat) returns (conflict: bool, next: seq<int>)
      requires id in orders
      modifies `orders
      ensures conflict == !HasCapacity(old(Contents()), old(orders)[id].slot, id)
      ensures Contents() ==
        if conflict then PutOrder(old(Contents()), id, InConflict(old(orders)[id])) else old(Contents())
      ensures conflict ==>
        Suggested(Free(old(orders), capacity, id), old(orders)[id].slot, MOST_SUGGESTIONS, SCANNED_SLOTS, next)
    {
      conflict, next := IsSlotCapacityConflict(orders[id].slot, id);
      if conflict {
        orders := orders[id := orders[id].(status := Conflict)];
        orders := orders[id := orders[id].(conflictReason := Some("slot_capacity_exceeded"))];
      }
    }

    /** The part quoting and confirming share. */
    method RepriceOrder(env: Env, id: nat) returns (error: Option<OrderError>, next: seq<int>)
      modifies `orders
      ensures
        match Reprice(old(Contents()), env, id)
        case Rejected(reply) => Reply(Contents(), error) == reply
        case Ok(o) => error == None && Contents() == PutOrder(old(Contents()), id, o)
      ensures error == Some(SlotFull) ==>
        id in old(orders)
        && Suggested(Free(old(orders), capacity, id), old(orders)[id].slot, MOST_SUGGESTIONS, SCANNED_SLOTS, next)
    {
      next := [];
      if id !in orders {
        return Some(NotFound), next;
      }
      if !Mutable(orders[id].status) {
        return Some(NotMutable), next;
      }
      var conflict;
      conflict, next := QuoteOrRaiseConflict(id);
      if conflict {
        return Some(SlotFull), next;
      }
      error := RefreshMoney(env, id);
    }

    /** Resolves the fee again and adds the stored line rows up again. */
    method RefreshMoney(env: Env, id: nat) returns (error: Option<OrderError>)
      requires id in orders
      modifies `orders
      ensures
        var o := old(orders)[id];
        match FeeFor(env, o.kind, o.address)
        case Rejected(e) => error == Some(e) && Contents() == old(Contents())
        case Ok(fee) =>
          && error == None
          && Contents() == PutOrder(old(Contents()), id, WithMoney(o, LinesOf(old(Contents()), id), fee))
    {
      var fee := ResolveDeliveryFee(env, orders[id].kind, orders[id].address);
      if fee.Rejected? {
        return Some(fee.error);
      }
      orders := orders[id := orders[id].(fee := fee.value)];
      var rows := if id in lines then lines[id] else [];
      orders := orders[id := orders[id].(subtotal := Sum(rows))];
      orders := orders[id := orders[id].(total := orders[id].subtotal + orders[id].fee)];
      return None;
    }

    method QuoteOrder(env: Env, id: nat, now: int) returns (error: Option<OrderError>, next: seq<int>)
      modifies `orders
      ensures Reply(Contents(), error) == DoQuote(old(Contents()), env, id, now)
      ensures error == Some(SlotFull) ==>
        id in old(orders)
        && Suggested(Free(old(orders), capacity, id), old(orders)[id].slot, MOST_SUGGESTIONS, SCANNED_SLOTS, next)
    {
      error, next := RepriceOrder(env, id);
      if error == None {
        orders := orders[id := orders[id].(status := Quoted, conflictReason := None)];
        orders := orders[id := orders[id].(quoteExpiresAt := Some(now + QUOTE_TTL))];
      }
    }

    method ConfirmOrder(env: Env, id: nat, now: int) returns (error: Option<OrderError>, next: seq<int>)
      modifies `orders
      ensures Reply(Contents(), error) == DoConfirm(old(Contents()), env, id, now)
      ensures error == Some(SlotFull) ==>
        id in old(orders)
        && Suggested(Free(old(orders), capacity, id), old(orders)[id].slot, MOST_SUGGESTIONS, SCANNED_SLOTS, next)
    {
      error, next := RepriceOrder(env, id);
      if error == None {
        orders := orders[id := orders[id].(status := Confirmed, conflictReason := None, quoteExpiresAt := None)];
        orders := orders[id := orders[id].(confirmedAt := Some(now))];
      }
    }

    method CancelOrder(id: nat, now: int) returns (error: Option<OrderError>)
      modifies `orders
      ensures Reply(Contents(), error) == DoCancel(old(Contents()), id, now)
    {
      if id !in orders {
        return Some(NotFound);
      }
      var o := orders[id];
      if o.status == Cancelled {
        return None;
      }
      if o.status == HandedOff || o.status == OutForDelivery || o.status == Delivered {
        return Some(NotCancellable);
      }
      var cutoff := now - CANCEL_CUTOFF;
      if o.confirmedAt.Some? && o.confirmedAt.value <= cutoff {
        return Some(NotCancellable);
      }
      o := o.(status := Cancelled);
      o := o.(conflictReason := None, quoteExpiresAt := None);
      o := o.(codeHash := None, codeExpiresAt := None);
      orders := orders[id := o];
      return None;
    }

    // ---- Fulfillment ----

    method TransitionOrderStatus(id: nat, target: Status, now: int) returns (error: Option<OrderError>)
      modifies `orders
      ensures Reply(Contents(), error) == DoTransition(old(Contents()), id, target, now)
    {
      if id !in orders {
        return Some(NotFound);
      }
      var o := orders[id];
      if target == HandedOff {
        return Some(HandoffNeedsCode);
      }
      if !TransitionAllowed(o.kind, o.status, target) {
        return Some(BadTransition);
      }
      o := o.(status := target);
      o := o.(conflictReason := None);
      if target == Preparing {
        o := o.(preparingAt := Some(now));
      } else if target == ReadyForPickup || target == ReadyForDispatch {
        o := o.(readyAt := Some(now));
      } else if target == OutForDelivery {
        o := o.(dispatchedAt := Some(now));
      } else if target == Delivered {
        o := o.(deliveredAt := Some(now));
      }
      if target == ReadyForPickup {
        o := o.(codeHash := None, codeExpiresAt := None);
      }
      orders := orders[id := o];
      return None;
    }

    method IssuePickupCode(id: nat, code: string, ttlSetting: int, now: int) returns (error: Option<OrderError>)
      modifies this
      ensures Reply(Contents(), error) == DoIssueCode(old(Contents()), id, code, ttlSetting, now)
    {
      if id !in orders {
        return Some(NotFound);
      }
      var o := orders[id];
      if o.kind != Pickup {
        return Some(NotPickup);
      }
      if o.status != Confirmed && o.status != Preparing && o.status != ReadyForPickup {
        return Some(NotEligible);
      }
      o := o.(codeHash := Some(Hash(id, code)));
      o := o.(codeExpiresAt := Some(now + Max(60, ttlSetting) * 1_000_000));
      orders := orders[id := o];
      issued := issued[id := IssuesOf(Contents(), id) + [Issue(code, now, CodeTtl(ttlSetting), o.status)]];
      return None;
    }

    method VerifyPickupCodeAndHandoff(id: nat, code: string, now: int) returns (error: Option<OrderError>)
      modifies `orders
      ensures Reply(Contents(), error) == DoVerifyCode(old(Contents()), id, code, now)
    {
      if id !in orders {
        return Some(NotFound);
      }
      var o := orders[id];
      error := CodeCheck(o, id, code, now);
      if error == None {
        o := o.(status := HandedOff);
        o := o.(handedOffAt := Some(now));
        o := o.(codeHash := None, codeExpiresAt := None);
        orders := orders[id := o];
      }
    }
  }
}
