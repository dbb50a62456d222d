/**
 * Concurrent requests against the rate-limit table, statement by statement.
 *
 * A request selects its bucket's row FOR UPDATE: it waits while another transaction holds the row's lock, and a row
 * that is only pending in another transaction is not visible. Without a row it inserts one, waiting while another
 * insert of the same bucket is pending, and failing if the row has been committed in the meantime; a failed insert
 * is tried once more. Committing prunes the key's old rows, waiting for their locks. A request may die at any point.
 */
module RateLimitRace {
  import opened Common
  import opened RateLimit

  datatype Phase = Selecting | NoRow | Inserted | Holding(count: nat) | Gone

  datatype Ending = Running | Served | IpBlocked | UserBlocked | Died

  datatype Req = Req(ip: string, user: Option<string>, window: int, onUser: bool, retried: bool, phase: Phase,
      ending: Ending)

  datatype Step =
    | Arrive(id: nat, ip: string, user: Option<string>, now: int)
    | Select(id: nat)
    | Insert(id: nat)
    | Finish(id: nat)
    | Die(id: nat)

  /**
   * `admitted` and `since` are history: the requests each bucket ever admitted, and those it admitted since its
   * current row was inserted.
   */
  datatype World = World(
    clock: int,
    table: Table,
    locks: map<Bucket, nat>,
    pending: map<Bucket, nat>,
    reqs: map<nat, Req>,
    admitted: map<Bucket, set<nat>>,
    since: map<Bucket, set<nat>>)

  function Start(clock: int): World { World(clock, map[], map[], map[], map[], map[], map[]) }

  function Ids(m: map<Bucket, set<nat>>, b: Bucket): set<nat> { if b in m then m[b] else {} }

  function IpBucket(r: Req): Bucket { Bucket(IpKey(r.ip), r.window) }

  /** The user scope is skipped without a user. */
  predicate HasUser(r: Req) { r.user.Some? && r.user.value != "" }

  function UserBucket(r: Req): Bucket
    requires r.user.Some?
  {
    Bucket(UserKey(r.user.value), r.window)
  }

  /** The bucket a request is working on. */
  function Target(r: Req): Bucket { if r.onUser && r.user.Some? then UserBucket(r) else IpBucket(r) }

  // ---- Steps ----

  /** Rows that a commit for bucket `b` prunes. */
  function Pruned(w: World, b: Bucket): set<Bucket> { Stale(w.table, b.key, b.window - KEPT) }

  /** A request may take a step unless it has to wait for another transaction. */
  predicate Enabled(w: World, s: Step) {
    match s
    case Arrive(id, _, _, now) => id !in w.reqs && now >= w.clock
    case Select(id) =>
      id in w.reqs && w.reqs[id].phase == Selecting && Target(w.reqs[id]) !in w.locks
    case Insert(id) =>
      id in w.reqs && w.reqs[id].phase == NoRow && Target(w.reqs[id]) !in w.pending
    case Finish(id) =>
      id in w.reqs && (w.reqs[id].phase == Inserted || w.reqs[id].phase.Holding?)
      && Pruned(w, Target(w.reqs[id])) * w.locks.Keys == {}
    case Die(id) => id in w.reqs && w.reqs[id].phase != Gone
  }

  /** A request whose current scope admitted it goes on to its user's scope, or is served. */
  function Onward(r: Req): Req {
    if !r.onUser && HasUser(r) then r.(onUser := true, retried := false, phase := Selecting)
    else r.(phase := Gone, ending := Served)
  }

  function Blocked(r: Req): Req { r.(phase := Gone, ending := if r.onUser then UserBlocked else IpBlocked) }

  function Put(w: World, id: nat, r: Req): World { w.(reqs := w.reqs[id := r]) }

  /** Committing a count for the request's bucket: the row, the pruning and the history. */
  function Admit(w: World, id: nat, count: nat, isNew: bool): World
    requires id in w.reqs
  {
    var b := Target(w.reqs[id]);
    w.(table := w.table[b := count] - Pruned(w, b),
       locks := w.locks - {b}, pending := w.pending - {b},
       reqs := w.reqs[id := Onward(w.reqs[id])],
       admitted := w.admitted[b := Ids(w.admitted, b) + {id}],
       since := w.since[b := if isNew then {id} else Ids(w.since, b) + {id}])
  }

  function Arrived(w: World, id: nat, ip: string, user: Option<string>, now: int): World {
    w.(clock := now, reqs := w.reqs[id := Req(ip, user, WindowStart(now), false, false, Selecting, Running)])
  }

  function Selected(w: World, id: nat): World
    requires id in w.reqs
  {
    var b := Target(w.reqs[id]);
    if b in w.table then Put(w.(locks := w.locks[b := id]), id, w.reqs[id].(phase := Holding(w.table[b])))
    else Put(w, id, w.reqs[id].(phase := NoRow))
  }

  /** A unique-constraint conflict rolls the insert back; the first one is retried, the second fails closed. */
  function InsertTried(w: World, id: nat): World
    requires id in w.reqs
  {
    var r := w.reqs[id];
    if Target(r) !in w.table then Put(w.(pending := w.pending[Target(r) := id]), id, r.(phase := Inserted))
    else if !r.retried then Put(w, id, r.(phase := Selecting, retried := true))
    else Put(w, id, Blocked(r))
  }

  function Finished(limits: Limits, w: World, id: nat): World
    requires id in w.reqs && (w.reqs[id].phase == Inserted || w.reqs[id].phase.Holding?)
  {
    var r := w.reqs[id];
    var b := Target(r);
    if r.phase == Inserted then Admit(w, id, 1, true)
    else if r.phase.count >= limits.For(b.key) then Put(w.(locks := w.locks - {b}), id, Blocked(r))
    else Admit(w, id, r.phase.count + 1, false)
  }

  function Dead(w: World, id: nat): World
    requires id in w.reqs
  {
    var r := w.reqs[id];
    var b := Target(r);
    Put(w.(locks := if r.phase.Holding? then w.locks - {b} else w.locks,
           pending := if r.phase == Inserted then w.pending - {b} else w.pending),
        id, r.(phase := Gone, ending := Died))
  }

  function Take(limits: Limits, w: World, s: Step): World
    requires Enabled(w, s)
  {
    match s
    case Arrive(id, ip, user, now) => Arrived(w, id, ip, user, now)
    case Select(id) => Selected(w, id)
    case Insert(id) => InsertTried(w, id)
    case Finish(id) => Finished(limits, w, id)
    case Die(id) => Dead(w, id)
  }

  /** A step that has to wait is not taken. */
  function Next(limits: Limits, w: World, s: Step): World { if Enabled(w, s) then Take(limits, w, s) else w }

  function Run(limits: Limits, w: World, steps: seq<Step>): World
    decreases |steps|
  {
    if steps == [] then w else Run(limits, Next(limits, w, steps[0]), steps[1..])
  }

  // ---- The invariant ----

  /** A row lock is held by a request that read the row, and its reading is still current. */
  ghost predicate LockOk(w: World, b: Bucket)
    requires b in w.locks
  {
    var id := w.locks[b];
    id in w.reqs && Target(w.reqs[id]) == b && b in w.table && w.reqs[id].phase == Holding(w.table[b])
  }

  /** A pending insert belongs to a request, and nobody has committed its row. */
  ghost predicate PendingOk(w: World, b: Bucket)
    requires b in w.pending
  {
    var id := w.pending[b];
    id in w.reqs && Target(w.reqs[id]) == b && b !in w.table && w.reqs[id].phase == Inserted
  }

  ghost predicate OwnsWhatItNeeds(w: World, id: nat)
    requires id in w.reqs
  {
    var b := Target(w.reqs[id]);
    && (w.reqs[id].phase.Holding? ==> b in w.locks && w.locks[b] == id)
    && (w.reqs[id].phase == Inserted ==> b in w.pending && w.pending[b] == id)
  }

  ghost predicate LocksHeld(w: World) {
    && (forall b :: b in w.locks ==> LockOk(w, b))
    && (forall b :: b in w.pending ==> PendingOk(w, b))
    && (forall id :: id in w.reqs ==> OwnsWhatItNeeds(w, id))
  }

  /** The buckets a request has spent a unit of, by how far it got. */
  function Spends(r: Req): set<Bucket> {
    if r.ending == Served then {IpBucket(r)} + (if HasUser(r) then {UserBucket(r)} else {})
    else if r.onUser then {IpBucket(r)}
    else {}
  }

  ghost predicate ReqOk(r: Req) {
    && (r.phase == Gone <==> r.ending != Running)
    && (r.onUser ==> HasUser(r))
    && (r.ending == IpBlocked ==> !r.onUser) && (r.ending == UserBlocked ==> r.onUser)
    && (r.ending == Served ==> r.onUser == HasUser(r))
  }

  ghost predicate History(w: World) {
    && (forall id :: id in w.reqs ==> ReqOk(w.reqs[id]))
    && (forall id, b :: id in Ids(w.admitted, b) <==> id in w.reqs && b in Spends(w.reqs[id]))
  }

  /** A row counts the requests it admitted, all of them distinct, within the limit. */
  ghost predicate RowCounts(limits: Limits, w: World, b: Bucket)
    requires b in w.table
  {
    w.table[b] == |Ids(w.since, b)| && Ids(w.since, b) <= Ids(w.admitted, b) && 1 <= w.table[b] <= limits.For(b.key)
  }

  ghost predicate Counts(limits: Limits, w: World) {
    forall b :: b in w.table ==> RowCounts(limits, w, b)
  }

  ghost predicate Inv(limits: Limits, w: World) {
    LocksHeld(w) && History(w) && Counts(limits, w)
  }

  /** Request `id` moved, and nothing but its own target's lock, pending insert and row, and unlocked rows, changed. */
  ghost predicate Moves(w: World, w': World, id: nat) {
    && id in w'.reqs && w'.reqs == w.reqs[id := w'.reqs[id]]
    && (forall b :: b in w'.locks && w'.locks[b] != id ==> b in w.locks && w'.locks[b] == w.locks[b])
    && (forall b :: b in w.locks && w.locks[b] != id ==> b in w'.locks && w'.locks[b] == w.locks[b])
    && (forall b :: b in w.locks && w.locks[b] != id ==> b in w'.table && b in w.table && w'.table[b] == w.table[b])
    && (forall b :: b in w'.pending && w'.pending[b] != id ==> b in w.pending && w'.pending[b] == w.pending[b])
    && (forall b :: b in w.pending && w.pending[b] != id ==> b in w'.pending && w'.pending[b] == w.pending[b])
    && (forall b :: b in w.pending && w.pending[b] != id && b in w'.table ==> b in w.table)
    && (forall b :: b in w'.locks && w'.locks[b] == id ==> LockOk(w', b))
    && (forall b :: b in w'.pending && w'.pending[b] == id ==> PendingOk(w', b))
    && OwnsWhatItNeeds(w', id)
  }

  lemma MovesKeepLocks(w: World, w': World, id: nat)
    requires LocksHeld(w) && Moves(w, w', id)
    ensures LocksHeld(w')
  {
    forall b | b in w'.locks ensures LockOk(w', b) { if w'.locks[b] != id { assert LockOk(w, b); } }
    forall b | b in w'.pending ensures PendingOk(w', b) { if w'.pending[b] != id { assert PendingOk(w, b); } }
    forall i | i in w'.reqs ensures OwnsWhatItNeeds(w', i) { if i != id { assert OwnsWhatItNeeds(w, i); } }
  }

  /** A request owns at most its own target's lock or pending insert. */
  lemma OwnedIsTarget(w: World, id: nat)
    requires LocksHeld(w)
    ensures forall b ::
      b in w.locks && w.locks[b] == id ==> id in w.reqs && b == Target(w.reqs[id]) && w.reqs[id].phase.Holding?
    ensures forall b ::
      b in w.pending && w.pending[b] == id ==> id in w.reqs && b == Target(w.reqs[id]) && w.reqs[id].phase == Inserted
  {
    forall b | b in w.locks && w.locks[b] == id
      ensures b == Target(w.reqs[id]) && w.reqs[id].phase.Holding?
    {
      assert LockOk(w, b);
    }
    forall b | b in w.pending && w.pending[b] == id
      ensures b == Target(w.reqs[id]) && w.reqs[id].phase == Inserted
    {
      assert PendingOk(w, b);
    }
  }

  lemma LockedRowsExist(w: World)
    requires LocksHeld(w)
    ensures forall b :: b in w.locks ==> b in w.table
  {
    forall b | b in w.locks ensures b in w.table { assert LockOk(w, b); }
  }

  lemma ArriveMoves(w: World, id: nat, ip: string, user: Option<string>, now: int)
    requires LocksHeld(w) && id !in w.reqs
    ensures Moves(w, Arrived(w, id, ip, user, now), id)
  {
    OwnedIsTarget(w, id);
    LockedRowsExist(w);
  }

  /** Letting go of whatever the request owns. */
  lemma ReleaseMoves(w: World, w': World, id: nat)
    requires LocksHeld(w) && id in w.reqs && id in w'.reqs && w'.reqs == w.reqs[id := w'.reqs[id]]
    requires !w'.reqs[id].phase.Holding? && w'.reqs[id].phase != Inserted
    requires var b := Target(w.reqs[id]);
             && w'.locks == (if w.reqs[id].phase.Holding? then w.locks - {b} else w.locks)
             && w'.pending == (if w.reqs[id].phase == Inserted then w.pending - {b} else w.pending)
             && (forall c :: c in w.locks && c != b ==> c in w'.table && c in w.table && w'.table[c] == w.table[c])
             && (forall c :: c in w'.table && c !in w.table ==> c == b && w.reqs[id].phase == Inserted)
             && (!w.reqs[id].phase.Holding? && b in w.locks ==>
                 b in w'.table && b in w.table && w'.table[b] == w.table[b])
    ensures Moves(w, w', id)
  {
    OwnedIsTarget(w, id);
    assert OwnsWhatItNeeds(w, id);
  }

  lemma LockMoves(w: World, id: nat)
    requires LocksHeld(w) && id in w.reqs && w.reqs[id].phase == Selecting
    requires Target(w.reqs[id]) !in w.locks && Target(w.reqs[id]) in w.table
    ensures Moves(w, Selected(w, id), id)
  {
    OwnedIsTarget(w, id);
    LockedRowsExist(w);
    var b := Target(w.reqs[id]);
    var w' := Selected(w, id);
    assert Target(w'.reqs[id]) == b && w'.locks == w.locks[b := id] && w'.pending == w.pending;
  }

  lemma PendMoves(w: World, id: nat)
    requires LocksHeld(w) && id in w.reqs && w.reqs[id].phase == NoRow
    requires Target(w.reqs[id]) !in w.pending && Target(w.reqs[id]) !in w.table
    ensures Moves(w, InsertTried(w, id), id)
  {
    OwnedIsTarget(w, id);
    LockedRowsExist(w);
    var b := Target(w.reqs[id]);
    var w' := InsertTried(w, id);
    assert Target(w'.reqs[id]) == b && w'.locks == w.locks && w'.pending == w.pending[b := id];
  }

  lemma SelectMoves(w: World, id: nat)
    requires LocksHeld(w) && id in w.reqs && w.reqs[id].phase == Selecting && Target(w.reqs[id]) !in w.locks
    ensures Moves(w, Selected(w, id), id)
  {
    LockedRowsExist(w);
    if Target(w.reqs[id]) in w.table { LockMoves(w, id); } else { ReleaseMoves(w, Selected(w, id), id); }
  }

  lemma InsertMoves(w: World, id: nat)
    requires LocksHeld(w) && id in w.reqs && w.reqs[id].phase == NoRow && Target(w.reqs[id]) !in w.pending
    ensures Moves(w, InsertTried(w, id), id)
  {
    LockedRowsExist(w);
    if Target(w.reqs[id]) !in w.table { PendMoves(w, id); } else { ReleaseMoves(w, InsertTried(w, id), id); }
  }

  lemma DieMoves(w: World, id: nat)
    requires LocksHeld(w) && id in w.reqs
    ensures Moves(w, Dead(w, id), id)
  {
    LockedRowsExist(w);
    ReleaseMoves(w, Dead(w, id), id);
  }

  lemma AdmitMoves(w: World, id: nat, count: nat, isNew: bool)
    requires LocksHeld(w) && id in w.reqs && (w.reqs[id].phase == Inserted || w.reqs[id].phase.Holding?)
    requires Pruned(w, Target(w.reqs[id])) * w.locks.Keys == {}
    ensures Moves(w, Admit(w, id, count, isNew), id)
  {
    var b := Target(w.reqs[id]);
    assert OwnsWhatItNeeds(w, id);
    if b in w.locks { assert LockOk(w, b); }
    if b in w.pending { assert PendingOk(w, b); }
    assert w.reqs[id].phase == Inserted ==> b !in w.locks;
    assert w.reqs[id].phase.Holding? ==> b !in w.pending;
    forall c | c in w.locks
      ensures c in w.table && c !in Pruned(w, b)
    {
      assert LockOk(w, c);
      assert c !in Pruned(w, b) * w.locks.Keys;
    }
    assert w.locks - {b} == if w.reqs[id].phase.Holding? then w.locks - {b} else w.locks;
    assert w.pending - {b} == if w.reqs[id].phase == Inserted then w.pending - {b} else w.pending;
    ReleaseMoves(w, Admit(w, id, count, isNew), id);
  }

  lemma FinishMoves(limits: Limits, w: World, id: nat)
    requires LocksHeld(w) && Enabled(w, Finish(id))
    ensures Moves(w, Finished(limits, w, id), id)
  {
    var r := w.reqs[id];
    if r.phase == Inserted {
      AdmitMoves(w, id, 1, true);
    } else if r.phase.count < limits.For(Target(r).key) {
      AdmitMoves(w, id, r.phase.count + 1, false);
    } else {
      LockedRowsExist(w);
      ReleaseMoves(w, Finished(limits, w, id), id);
    }
  }

  lemma AdmitKeepsHistory(w: World, id: nat, count: nat, isNew: bool)
    requires History(w) && id in w.reqs && w.reqs[id].phase != Gone
    ensures History(Admit(w, id, count, isNew))
  {
    var r := w.reqs[id];
    var w' := Admit(w, id, count, isNew);
    assert Spends(Onward(r)) == Spends(r) + {Target(r)};
    forall i, b
      ensures i in Ids(w'.admitted, b) <==> i in w'.reqs && b in Spends(w'.reqs[i])
    {
      assert i in Ids(w.admitted, b) <==> i in w.reqs && b in Spends(w.reqs[i]);
    }
  }

  /** The request has not spent its current bucket yet, so an admission is a new one. */
  lemma AdmitKeepsCounts(limits: Limits, w: World, id: nat, count: nat, isNew: bool)
    requires History(w) && Counts(limits, w) && id in w.reqs && w.reqs[id].phase != Gone
    requires var b := Target(w.reqs[id]);
             && count <= limits.For(b.key)
             && (if isNew then count == 1 else b in w.table && count == w.table[b] + 1)
    ensures Counts(limits, Admit(w, id, count, isNew))
  {
    var b := Target(w.reqs[id]);
    assert b !in Spends(w.reqs[id]);
    assert id !in Ids(w.admitted, b);
    var w' := Admit(w, id, count, isNew);
    forall c | c in w'.table
      ensures RowCounts(limits, w', c)
    {
      if c != b || !isNew { assert RowCounts(limits, w, c); }
    }
  }

  /** A step that commits nothing keeps history and counts, as long as the request's spending is unchanged. */
  lemma QuietStepKeeps(limits: Limits, w: World, w': World, id: nat)
    requires History(w) && Counts(limits, w) && w'.table == w.table && w'.admitted == w.admitted && w'.since == w.since
    requires id in w'.reqs && w'.reqs == w.reqs[id := w'.reqs[id]] && ReqOk(w'.reqs[id])
    requires Spends(w'.reqs[id]) == if id in w.reqs then Spends(w.reqs[id]) else {}
    ensures History(w') && Counts(limits, w')
  {
    forall i, b
      ensures i in Ids(w'.admitted, b) <==> i in w'.reqs && b in Spends(w'.reqs[i])
    {
      assert i in Ids(w.admitted, b) <==> i in w.reqs && b in Spends(w.reqs[i]);
    }
    forall b | b in w'.table ensures RowCounts(limits, w', b) { assert RowCounts(limits, w, b); }
  }

  /** Moving on within a scope, or ending without being admitted, spends nothing more. */
  lemma StillSpends(r: Req, r': Req)
    requires ReqOk(r) && r.ending == Running
    requires r' ==
      r.(phase := r'.phase, retried := r'.retried) || r' == Blocked(r) || r' == r.(phase := Gone, ending := Died)
    requires r'.phase != Gone || r'.ending != Running
    ensures ReqOk(r') && Spends(r') == Spends(r)
  {
  }

  lemma FinishKeeps(limits: Limits, w: World, id: nat)
    requires Inv(limits, w) && limits.Valid() && Enabled(w, Finish(id))
    ensures History(Finished(limits, w, id)) && Counts(limits, Finished(limits, w, id))
  {
    var r := w.reqs[id];
    var b := Target(r);
    assert OwnsWhatItNeeds(w, id);
    if r.phase == Inserted {
      AdmitKeepsHistory(w, id, 1, true);
      AdmitKeepsCounts(limits, w, id, 1, true);
    } else if r.phase.count < limits.For(b.key) {
      assert LockOk(w, b);
      AdmitKeepsHistory(w, id, r.phase.count + 1, false);
      AdmitKeepsCounts(limits, w, id, r.phase.count + 1, false);
    } else {
      StillSpends(r, Blocked(r));
      QuietStepKeeps(limits, w, Finished(limits, w, id), id);
    }
  }

  lemma ArriveKeeps(limits: Limits, w: World, id: nat, ip: string, user: Option<string>, now: int)
    requires Inv(limits, w) && id !in w.reqs
    ensures Inv(limits, Arrived(w, id, ip, user, now))
  {
    ArriveMoves(w, id, ip, user, now);
    MovesKeepLocks(w, Arrived(w, id, ip, user, now), id);
    QuietStepKeeps(limits, w, Arrived(w, id, ip, user, now), id);
  }

  lemma SelectSpendsNothing(limits: Limits, w: World, id: nat)
    requires History(w) && Counts(limits, w) && Enabled(w, Select(id))
    ensures History(Selected(w, id)) && Counts(limits, Selected(w, id))
  {
    SelectedShape(w, id);
    assert ReqOk(w.reqs[id]);
    StillSpends(w.reqs[id], Selected(w, id).reqs[id]);
    QuietStepKeeps(limits, w, Selected(w, id), id);
  }

  lemma SelectedShape(w: World, id: nat)
    requires id in w.reqs
    ensures
      var w' := Selected(w, id);
      && w'.table == w.table && w'.admitted == w.admitted && w'.since == w.since
      && id in w'.reqs && w'.reqs == w.reqs[id := w'.reqs[id]]
      && w'.reqs[id] == w.reqs[id].(phase := w'.reqs[id].phase) && w'.reqs[id].phase != Gone
  {
  }

  lemma SelectKeeps(limits: Limits, w: World, id: nat)
    requires Inv(limits, w) && Enabled(w, Select(id))
    ensures Inv(limits, Selected(w, id))
  {
    SelectMoves(w, id);
    MovesKeepLocks(w, Selected(w, id), id);
    SelectSpendsNothing(limits, w, id);
  }

  lemma InsertKeeps(limits: Limits, w: World, id: nat)
    requires Inv(limits, w) && Enabled(w, Insert(id))
    ensures Inv(limits, InsertTried(w, id))
  {
    InsertMoves(w, id);
    MovesKeepLocks(w, InsertTried(w, id), id);
    StillSpends(w.reqs[id], InsertTried(w, id).reqs[id]);
    QuietStepKeeps(limits, w, InsertTried(w, id), id);
  }

  lemma DieKeeps(limits: Limits, w: World, id: nat)
    requires Inv(limits, w) && Enabled(w, Die(id))
    ensures Inv(limits, Dead(w, id))
  {
    DieMoves(w, id);
    MovesKeepLocks(w, Dead(w, id), id);
    StillSpends(w.reqs[id], Dead(w, id).reqs[id]);
    QuietStepKeeps(limits, w, Dead(w, id), id);
  }

  lemma StepKeeps(limits: Limits, w: World, s: Step)
    requires Inv(limits, w) && limits.Valid()
    ensures Inv(limits, Next(limits, w, s))
  {
    if Enabled(w, s) {
      match s
      case Arrive(id, ip, user, now) => ArriveKeeps(limits, w, id, ip, user, now);
      case Select(id) => SelectKeeps(limits, w, id);
      case Insert(id) => InsertKeeps(limits, w, id);
      case Finish(id) =>
        FinishMoves(limits, w, id);
        MovesKeepLocks(w, Finished(limits, w, id), id);
        FinishKeeps(limits, w, id);
      case Die(id) => DieKeeps(limits, w, id);
    }
  }

  lemma {:induction false} RunKeeps(limits: Limits, w: World, steps: seq<Step>)
    requires Inv(limits, w) && limits.Valid()
    ensures Inv(limits, Run(limits, w, steps))
    decreases |steps|
  {
    if steps != [] {
      StepKeeps(limits, w, steps[0]);
      RunKeeps(limits, Next(limits, w, steps[0]), steps[1..]);
    }
  }
}
