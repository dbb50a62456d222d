/**
 * When the concurrent limiter keeps its limit and when it does not, exactly. Over a run, every row counts all that its
 * window admitted just as long as no commit inserts a row for a bucket that has admitted someone before. And from any
 * reachable state, how many requests a window can still come to admit is decided by who is unfinished.
 */
module RateLimitExcess {
  import opened Common
  import opened RateLimit
  import opened RateLimitRace
  import opened RateLimitQuota

  // ---- Rows that count everything ----

  /** A row's count is that of all requests its window ever admitted. */
  ghost predicate RowsCountAll(w: World) { forall b :: b in w.table ==> Ids(w.admitted, b) == Ids(w.since, b) }

  /** The commit of an inserted row whose bucket has admitted someone before. */
  ghost predicate Reinserts(w: World, s: Step) {
    s.Finish? && Enabled(w, s) && w.reqs[s.id].phase == Inserted && Ids(w.admitted, Target(w.reqs[s.id])) != {}
  }

  ghost predicate AdmittedWithin(limits: Limits, w: World) { forall b :: |Ids(w.admitted, b)| <= limits.For(b.key) }

  lemma AdmitCountsAllIff(w: World, id: nat, count: nat, isNew: bool)
    requires History(w) && RowsCountAll(w) && id in w.reqs && w.reqs[id].phase != Gone
    requires isNew <==> Target(w.reqs[id]) !in w.table
    ensures RowsCountAll(Admit(w, id, count, isNew)) <==> !isNew || Ids(w.admitted, Target(w.reqs[id])) == {}
  {
    var b := Target(w.reqs[id]);
    var w' := Admit(w, id, count, isNew);
    assert b !in Spends(w.reqs[id]);
    assert id !in Ids(w.admitted, b);
    assert b in w'.table && b !in Pruned(w, b);
    assert Ids(w'.admitted, b) == Ids(w.admitted, b) + {id};
    assert Ids(w'.since, b) == if isNew then {id} else Ids(w.since, b) + {id};
  }

  /** From a state whose rows count everything, a step keeps it so exactly when it re-inserts no row. */
  lemma StepCountsAllIff(limits: Limits, w: World, s: Step)
    requires Inv(limits, w) && RowsCountAll(w)
    ensures RowsCountAll(Next(limits, w, s)) <==> !Reinserts(w, s)
  {
    if s.Finish? && Enabled(w, s) {
      var r := w.reqs[s.id];
      assert OwnsWhatItNeeds(w, s.id);
      if r.phase == Inserted {
        assert PendingOk(w, Target(r));
        AdmitCountsAllIff(w, s.id, 1, true);
      } else {
        assert LockOk(w, Target(r));
        if r.phase.count < limits.For(Target(r).key) { AdmitCountsAllIff(w, s.id, r.phase.count + 1, false); }
      }
    }
  }

  ghost predicate CountsAllThroughout(limits: Limits, w: World, steps: seq<Step>)
    decreases |steps|
  {
    RowsCountAll(w) && (steps != [] ==> CountsAllThroughout(limits, Next(limits, w, steps[0]), steps[1..]))
  }

  ghost predicate NeverReinserts(limits: Limits, w: World, steps: seq<Step>)
    decreases |steps|
  {
    steps != [] ==> !Reinserts(w, steps[0]) && NeverReinserts(limits, Next(limits, w, steps[0]), steps[1..])
  }

  lemma {:induction false} RunCountsAllIff(limits: Limits, w: World, steps: seq<Step>)
    requires Inv(limits, w) && limits.Valid() && RowsCountAll(w)
    ensures CountsAllThroughout(limits, w, steps) <==> NeverReinserts(limits, w, steps)
    decreases |steps|
  {
    if steps != [] {
      StepKeeps(limits, w, steps[0]);
      StepCountsAllIff(limits, w, steps[0]);
      if !Reinserts(w, steps[0]) { RunCountsAllIff(limits, Next(limits, w, steps[0]), steps[1..]); }
    }
  }

  lemma StepStaysWithin(limits: Limits, w: World, s: Step)
    requires Inv(limits, w) && limits.Valid() && RowsCountAll(w) && AdmittedWithin(limits, w) && !Reinserts(w, s)
    ensures AdmittedWithin(limits, Next(limits, w, s))
  {
    var w' := Next(limits, w, s);
    StepKeeps(limits, w, s);
    StepCountsAllIff(limits, w, s);
    forall b
      ensures |Ids(w'.admitted, b)| <= limits.For(b.key)
    {
      if b in w'.table { assert RowCounts(limits, w', b); } else { OnlyRowsAdmit(limits, w, s, b); }
    }
  }

  lemma AdmittedHaveRows(w: World, id: nat, count: nat, isNew: bool, b: Bucket)
    requires id in w.reqs && b !in Admit(w, id, count, isNew).table
    ensures Ids(Admit(w, id, count, isNew).admitted, b) == Ids(w.admitted, b)
  {
    assert Target(w.reqs[id]) !in Pruned(w, Target(w.reqs[id]));
  }

  /** A bucket without a row afterwards was not the one a commit admitted to. */
  lemma OnlyRowsAdmit(limits: Limits, w: World, s: Step, b: Bucket)
    requires b !in Next(limits, w, s).table
    ensures Ids(Next(limits, w, s).admitted, b) == Ids(w.admitted, b)
  {
    if s.Finish? && Enabled(w, s) {
      var r := w.reqs[s.id];
      if r.phase == Inserted {
        AdmittedHaveRows(w, s.id, 1, true, b);
      } else if r.phase.count < limits.For(Target(r).key) {
        AdmittedHaveRows(w, s.id, r.phase.count + 1, false, b);
      }
    }
  }

  lemma {:induction false} RunStaysWithin(limits: Limits, w: World, steps: seq<Step>)
    requires Inv(limits, w) && limits.Valid() && RowsCountAll(w) && AdmittedWithin(limits, w)
      && NeverReinserts(limits, w, steps)
    ensures AdmittedWithin(limits, Run(limits, w, steps))
    decreases |steps|
  {
    if steps != [] {
      StepKeeps(limits, w, steps[0]);
      StepCountsAllIff(limits, w, steps[0]);
      StepStaysWithin(limits, w, steps[0]);
      RunStaysWithin(limits, Next(limits, w, steps[0]), steps[1..]);
    }
  }

  /**
   * Over a whole run, the requests a window admitted equal its row's count at every point, for every row, if and only
   * if no commit inserts a row for a bucket that has admitted someone before; and then no window exceeds its limit.
   */
  lemma CountsAreAdmissionsIff(limits: Limits, clock: int, steps: seq<Step>)
    requires limits.Valid()
    ensures CountsAllThroughout(limits, Start(clock), steps) <==> NeverReinserts(limits, Start(clock), steps)
    ensures NeverReinserts(limits, Start(clock), steps) ==> AdmittedWithin(limits, Run(limits, Start(clock), steps))
  {
    RunCountsAllIff(limits, Start(clock), steps);
    if NeverReinserts(limits, Start(clock), steps) { RunStaysWithin(limits, Start(clock), steps); }
  }

  // ---- Who can still be admitted ----

  /** Holding a full row, a request can only be turned away. */
  predicate Stuck(limits: Limits, r: Req) { r.phase.Holding? && r.phase.count >= limits.For(Target(r).key) }

  /** An unfinished request that is not stuck, and has bucket `b` before it. */
  predicate Hopes(limits: Limits, r: Req, b: Bucket) {
    && r.ending == Running && !Stuck(limits, r)
    && (Target(r) == b || (!r.onUser && HasUser(r) && UserBucket(r) == b))
  }

  function Hopeful(limits: Limits, w: World, b: Bucket): set<nat>
  {
    set id | id in w.reqs && Hopes(limits, w.reqs[id], b)
  }

  /** Whoever bucket `b` has admitted, and whoever it may still admit. */
  function Reach(limits: Limits, w: World, b: Bucket): set<nat> { Ids(w.admitted, b) + Hopeful(limits, w, b) }

  /** The window is over: nobody arrives in it any more. */
  ghost predicate Past(w: World, b: Bucket) { b.window < WindowStart(w.clock) }

  lemma HopefulAreNew(limits: Limits, w: World, b: Bucket)
    requires Inv(limits, w)
    ensures Ids(w.admitted, b) * Hopeful(limits, w, b) == {}
      && |Reach(limits, w, b)| == |Ids(w.admitted, b)| + |Hopeful(limits, w, b)|
  {
    forall id | id in Hopeful(limits, w, b)
      ensures id !in Ids(w.admitted, b)
    {
      assert ReqOk(w.reqs[id]);
      assert id in Ids(w.admitted, b) ==> b in Spends(w.reqs[id]);
    }
  }

  /** `w'` is `w` with request `id` moved; whoever it hopes for or was admitted to it hoped for before. */
  ghost predicate GainsNothing(limits: Limits, w: World, w': World, id: nat, b: Bucket) {
    && id in w'.reqs && w'.reqs == w.reqs[id := w'.reqs[id]]
    && Ids(w.admitted, b) <= Ids(w'.admitted, b) <= Ids(w.admitted, b) + {id}
    && (id in Ids(w'.admitted, b) || Hopes(limits, w'.reqs[id], b) ==> id in Reach(limits, w, b))
  }

  lemma GainsKeepReach(limits: Limits, w: World, w': World, id: nat, b: Bucket)
    requires GainsNothing(limits, w, w', id, b)
    ensures Reach(limits, w', b) <= Reach(limits, w, b)
  {
  }

  lemma AdmitGains(limits: Limits, w: World, id: nat, count: nat, isNew: bool, b: Bucket)
    requires id in w.reqs && ReqOk(w.reqs[id]) && w.reqs[id].phase != Gone && !Stuck(limits, w.reqs[id])
    ensures GainsNothing(limits, w, Admit(w, id, count, isNew), id, b)
  {
  }

  lemma FinishGains(limits: Limits, w: World, id: nat, b: Bucket)
    requires Inv(limits, w) && Enabled(w, Finish(id))
    ensures GainsNothing(limits, w, Finished(limits, w, id), id, b)
  {
    var r := w.reqs[id];
    assert ReqOk(r);
    if r.phase == Inserted {
      AdmitGains(limits, w, id, 1, true, b);
    } else if !Stuck(limits, r) {
      AdmitGains(limits, w, id, r.phase.count + 1, false, b);
    }
  }

  /** A move within the current scope, or an end. */
  lemma QuietGains(limits: Limits, w: World, w': World, id: nat, b: Bucket)
    requires MovesQuietly(w, w', id) && ReqOk(w.reqs[id]) && w.reqs[id].phase != Gone && !w.reqs[id].phase.Holding?
    requires w'.reqs[id].onUser == w.reqs[id].onUser
    ensures GainsNothing(limits, w, w', id, b)
  {
  }

  lemma DieGains(limits: Limits, w: World, id: nat, b: Bucket)
    requires id in w.reqs
    ensures GainsNothing(limits, w, Dead(w, id), id, b)
  {
  }

  lemma ArriveGains(limits: Limits, w: World, id: nat, ip: string, user: Option<string>, now: int, b: Bucket)
    requires Past(w, b) && now >= w.clock
    ensures GainsNothing(limits, w, Arrived(w, id, ip, user, now), id, b)
  {
    WindowMonotone(w.clock, now);
  }

  lemma OtherStepsGain(limits: Limits, w: World, s: Step, b: Bucket)
    requires Inv(limits, w) && Past(w, b) && Enabled(w, s) && !s.Finish?
    ensures GainsNothing(limits, w, Take(limits, w, s), s.id, b)
  {
    match s
    case Arrive(id, ip, user, now) => ArriveGains(limits, w, id, ip, user, now, b);
    case Select(id) => assert ReqOk(w.reqs[id]); SelectIsQuiet(w, id); QuietGains(limits, w, Selected(w, id), id, b);
    case Insert(id) => assert ReqOk(w.reqs[id]); InsertIsQuiet(w, id); QuietGains(limits, w, InsertTried(w, id), id, b);
    case Die(id) => DieGains(limits, w, id, b);
  }

  lemma StepKeepsReach(limits: Limits, w: World, s: Step, b: Bucket)
    requires Inv(limits, w) && Past(w, b)
    ensures Past(Next(limits, w, s), b) && Reach(limits, Next(limits, w, s), b) <= Reach(limits, w, b)
  {
    if Enabled(w, s) {
      if s.Finish? { FinishGains(limits, w, s.id, b); } else { OtherStepsGain(limits, w, s, b); }
      GainsKeepReach(limits, w, Next(limits, w, s), s.id, b);
      if s.Arrive? { WindowMonotone(w.clock, s.now); }
    }
  }

  /** Whatever happens next, a window that is over admits nobody beyond those it may still admit now. */
  lemma {:induction false} RunKeepsReach(limits: Limits, w: World, steps: seq<Step>, b: Bucket)
    requires Inv(limits, w) && limits.Valid() && Past(w, b)
    ensures Past(Run(limits, w, steps), b) && Reach(limits, Run(limits, w, steps), b) <= Reach(limits, w, b)
    decreases |steps|
  {
    if steps != [] {
      StepKeeps(limits, w, steps[0]);
      StepKeepsReach(limits, w, steps[0], b);
      RunKeepsReach(limits, Next(limits, w, steps[0]), steps[1..], b);
    }
  }

  // ---- All of them can be admitted ----

  /** How far a request is from its end. */
  function Rank(r: Req): nat {
    if r.ending != Running then 0
    else
      (if r.onUser then 0 else 3)
      + (match r.phase case Selecting => 3 case NoRow => 2 case _ => 1)
  }

  function Open(w: World, k: nat): set<nat> { set id | id in w.reqs && Rank(w.reqs[id]) >= k }

  /** The sum of all ranks. */
  function Total(w: World): nat {
    |Open(w, 1)| + |Open(w, 2)| + |Open(w, 3)| + |Open(w, 4)| + |Open(w, 5)| + |Open(w, 6)|
  }

  /** Request `id` has come closer to its end; nobody else is farther from it, and whoever is new has ended. */
  ghost predicate ComesCloser(w: World, w': World, id: nat) {
    && id in w.reqs && id in w'.reqs && Rank(w'.reqs[id]) < Rank(w.reqs[id])
    && forall i :: i in w'.reqs ==> Rank(w'.reqs[i]) <= if i in w.reqs then Rank(w.reqs[i]) else 0
  }

  lemma OpenShrinks(w: World, w': World, id: nat, k: nat)
    requires ComesCloser(w, w', id) && k > 0
    ensures |Open(w', k)| <= |Open(w, k)|
    ensures k == Rank(w.reqs[id]) ==> |Open(w', k)| < |Open(w, k)|
  {
    SubsetSize(Open(w', k), Open(w, k));
    if k == Rank(w.reqs[id]) { SubsetSize(Open(w', k), Open(w, k) - {id}); }
  }

  lemma TotalFalls(w: World, w': World, id: nat)
    requires ComesCloser(w, w', id)
    ensures Total(w') < Total(w)
  {
    OpenShrinks(w, w', id, 1);
    OpenShrinks(w, w', id, 2);
    OpenShrinks(w, w', id, 3);
    OpenShrinks(w, w', id, 4);
    OpenShrinks(w, w', id, 5);
    OpenShrinks(w, w', id, 6);
  }

  /** Some steps later everyone who could be admitted still can be, or has been, and something has come to an end. */
  ghost predicate Advances(limits: Limits, w: World, w': World, b: Bucket) {
    Inv(limits, w') && Past(w', b) && Reach(limits, w', b) == Reach(limits, w, b) && Total(w') < Total(w)
  }

  lemma OneStep(limits: Limits, w: World, s: Step)
    ensures Run(limits, w, [s]) == Next(limits, w, s)
  {
    assert [s][1..] == [];
  }

  lemma DeathShape(limits: Limits, w: World, id: nat)
    requires id in w.reqs && w.reqs[id].phase != Gone
    ensures
      var w' := Next(limits, w, Die(id));
      w'.reqs == w.reqs[id := w.reqs[id].(phase := Gone, ending := Died)] && w'.admitted == w.admitted
  {
  }

  lemma DeathKeepsReach(limits: Limits, w: World, w': World, b: Bucket, id: nat)
    requires id in w.reqs && w.reqs[id].ending == Running && !Hopes(limits, w.reqs[id], b)
    requires w'.reqs == w.reqs[id := w.reqs[id].(phase := Gone, ending := Died)] && w'.admitted == w.admitted
    ensures Reach(limits, w, b) <= Reach(limits, w', b) && Total(w') < Total(w)
  {
    TotalFalls(w, w', id);
  }

  /** A request with nothing to hope for may die. */
  lemma HopelessDies(limits: Limits, w: World, b: Bucket, id: nat)
    requires Inv(limits, w) && limits.Valid() && Past(w, b)
    requires id in w.reqs && w.reqs[id].ending == Running && !Hopes(limits, w.reqs[id], b)
    ensures Advances(limits, w, Next(limits, w, Die(id)), b)
  {
    assert ReqOk(w.reqs[id]);
    StepKeeps(limits, w, Die(id));
    StepKeepsReach(limits, w, Die(id), b);
    DeathShape(limits, w, id);
    DeathKeepsReach(limits, w, Next(limits, w, Die(id)), b, id);
  }

  /** Everyone unfinished hopes for bucket `b`. */
  ghost predicate AllHope(limits: Limits, w: World, b: Bucket) {
    forall i :: i in w.reqs && w.reqs[i].ending == Running ==> Hopes(limits, w.reqs[i], b)
  }

  /** Locks are then held in that window only, which no commit for it prunes. */
  lemma NoLockInTheWay(limits: Limits, w: World, b: Bucket, id: nat)
    requires Inv(limits, w) && AllHope(limits, w, b) && id in w.reqs && w.reqs[id].ending == Running
    ensures Pruned(w, Target(w.reqs[id])) * w.locks.Keys == {}
  {
    assert Hopes(limits, w.reqs[id], b);
    forall c | c in w.locks
      ensures c !in Pruned(w, Target(w.reqs[id]))
    {
      assert LockOk(w, c);
      var holder := w.locks[c];
      assert ReqOk(w.reqs[holder]);
      assert Hopes(limits, w.reqs[holder], b);
      assert c.window == b.window;
    }
  }

  lemma AdmittedAdvances(limits: Limits, w: World, b: Bucket, id: nat)
    requires Inv(limits, w) && limits.Valid() && Past(w, b) && AllHope(limits, w, b)
    requires id in w.reqs && (w.reqs[id].phase == Inserted || w.reqs[id].phase.Holding?)
    ensures Advances(limits, w, Next(limits, w, Finish(id)), b)
  {
    assert ReqOk(w.reqs[id]);
    NoLockInTheWay(limits, w, b, id);
    assert Hopes(limits, w.reqs[id], b);
    StepKeeps(limits, w, Finish(id));
    StepKeepsReach(limits, w, Finish(id), b);
    FinishAdmits(limits, w, id);
    AdmissionKeepsReach(limits, w, Next(limits, w, Finish(id)), b, id);
  }

  lemma AdmissionCloser(w: World, w': World, id: nat)
    requires id in w.reqs && ReqOk(w.reqs[id]) && (w.reqs[id].phase == Inserted || w.reqs[id].phase.Holding?)
    requires w'.reqs == w.reqs[id := Onward(w.reqs[id])]
    ensures ComesCloser(w, w', id)
  {
  }

  /** An admission takes the request to bucket `b`, or to the scope whose bucket that is. */
  lemma AdmissionKeepsReach(limits: Limits, w: World, w': World, b: Bucket, id: nat)
    requires id in w.reqs && ReqOk(w.reqs[id]) && Hopes(limits, w.reqs[id], b)
      && (w.reqs[id].phase == Inserted || w.reqs[id].phase.Holding?)
    requires w'.reqs == w.reqs[id := Onward(w.reqs[id])]
    requires var t := Target(w.reqs[id]); w'.admitted == w.admitted[t := Ids(w.admitted, t) + {id}]
    ensures Reach(limits, w, b) <= Reach(limits, w', b) && Total(w') < Total(w)
  {
    assert id in Reach(limits, w', b);
    AdmissionCloser(w, w', id);
    TotalFalls(w, w', id);
  }

  lemma FinishAdmits(limits: Limits, w: World, id: nat)
    requires Enabled(w, Finish(id)) && !Stuck(limits, w.reqs[id])
    ensures
      var b := Target(w.reqs[id]);
      var w' := Next(limits, w, Finish(id));
      && w'.reqs == w.reqs[id := Onward(w.reqs[id])]
      && w'.admitted == w.admitted[b := Ids(w.admitted, b) + {id}]
  {
  }

  lemma OwnersAreAtWork(w: World)
    requires LocksHeld(w)
    ensures forall c :: c in w.locks ==> w.locks[c] in w.reqs && w.reqs[w.locks[c]].phase.Holding?
    ensures forall c :: c in w.pending ==> w.pending[c] in w.reqs && w.reqs[w.pending[c]].phase == Inserted
  {
    forall c | c in w.locks ensures w.locks[c] in w.reqs && w.reqs[w.locks[c]].phase.Holding? { assert LockOk(w, c); }
    forall c | c in w.pending
      ensures w.pending[c] in w.reqs && w.reqs[w.pending[c]].phase == Inserted
    {
      assert PendingOk(w, c);
    }
  }

  /** Nobody holds a lock or a pending insert. */
  lemma NobodyOwns(limits: Limits, w: World)
    requires Inv(limits, w)
    requires forall i :: i in w.reqs ==> !w.reqs[i].phase.Holding? && w.reqs[i].phase != Inserted
    ensures w.locks == map[] && w.pending == map[]
  {
    OwnersAreAtWork(w);
  }

  function InsertStep(r: Req, id: nat): Step { if r.phase == Selecting then Select(id) else Insert(id) }

  lemma InsertStepShape(limits: Limits, w: World, id: nat)
    requires Idle(w) && id in w.reqs && (w.reqs[id].phase == Selecting || w.reqs[id].phase == NoRow)
      && Target(w.reqs[id]) !in w.table
    ensures
      var r := w.reqs[id];
      var w' := Next(limits, w, InsertStep(r, id));
      w'.reqs == w.reqs[id := r.(phase := if r.phase == Selecting then NoRow else Inserted)]
      && w'.admitted == w.admitted
  {
  }

  lemma InsertStepKeepsReach(limits: Limits, w: World, w': World, b: Bucket, id: nat)
    requires id in w.reqs && Hopes(limits, w.reqs[id], b)
      && (w.reqs[id].phase == Selecting || w.reqs[id].phase == NoRow)
    requires w'.reqs == w.reqs[id := w.reqs[id].(phase := if w.reqs[id].phase == Selecting then NoRow else Inserted)]
    requires w'.admitted == w.admitted
    ensures Reach(limits, w, b) <= Reach(limits, w', b) && ComesCloser(w, w', id)
  {
    assert Hopes(limits, w'.reqs[id], b);
  }

  /** With no row in its way, a request goes on to its insert. */
  lemma TowardsInsert(limits: Limits, w: World, b: Bucket, id: nat)
    requires Inv(limits, w) && limits.Valid() && Past(w, b) && Idle(w)
    requires id in w.reqs && Hopes(limits, w.reqs[id], b)
      && (w.reqs[id].phase == Selecting || w.reqs[id].phase == NoRow)
    requires Target(w.reqs[id]) !in w.table
    ensures
      var w' := Next(limits, w, InsertStep(w.reqs[id], id));
      Advances(limits, w, w', b) && ComesCloser(w, w', id)
  {
    var s := InsertStep(w.reqs[id], id);
    StepKeeps(limits, w, s);
    StepKeepsReach(limits, w, s, b);
    InsertStepShape(limits, w, id);
    InsertStepKeepsReach(limits, w, Next(limits, w, s), b, id);
    TotalFalls(w, Next(limits, w, s), id);
  }

  // ---- Getting a row pruned ----

  /**
   * The row of `t` is gone, at the cost of new requests that have been served; else, as far as bucket `b` goes,
   * nothing has changed.
   */
  ghost predicate Clears(limits: Limits, w: World, w': World, t: Bucket, b: Bucket) {
    && Inv(limits, w') && Idle(w') && t !in w'.table && w'.clock >= w.clock
    && Ids(w'.admitted, b) == Ids(w.admitted, b)
    && (forall i :: i in w.reqs ==> i in w'.reqs && w'.reqs[i] == w.reqs[i])
    && (forall i :: i in w'.reqs && i !in w.reqs ==> w'.reqs[i].ending == Served)
  }

  lemma {:induction false} Bounded(s: set<int>) returns (m: int)
    ensures forall x :: x in s ==> x <= m
    decreases |s|
  {
    m := 0;
    if x :| x in s {
      m := Bounded(s - {x});
      m := Max(m, x);
      assert forall y :: y in s ==> y == x || y in s - {x};
    }
  }

  lemma FreshId(w: World) returns (id: nat)
    ensures id !in w.reqs
  {
    var ids: set<int> := set i | i in w.reqs.Keys :: i as int;
    var m := Bounded(ids);
    id := Max(0, m + 1);
    assert id in w.reqs.Keys ==> id as int in ids;
  }

  /** A time in a window later than all rows and more than two windows later than `b`. */
  lemma LateEnough(w: World, b: Bucket, c: Bucket) returns (now: int)
    ensures now >= w.clock && WindowStart(now) > c.window && WindowStart(now) - KEPT > b.window
    ensures forall k: Key :: Bucket(k, WindowStart(now)) !in w.table
  {
    var windows := set r | r in w.table.Keys :: r.window;
    var m := Bounded(windows);
    now := Max(w.clock, Max(m, Max(b.window + KEPT, c.window)) + WINDOW);
    assert WindowStart(now) > now - WINDOW;
    forall k: Key
      ensures Bucket(k, WindowStart(now)) !in w.table
    {
      assert Bucket(k, WindowStart(now)) in w.table ==> WindowStart(now) in windows;
    }
  }

  lemma FourSteps(limits: Limits, w: World, a: Step, id: nat)
    ensures Run(limits, w, [a, Select(id), Insert(id), Finish(id)]) == InsertsAlone(limits, Next(limits, w, a), id)
  {
    var s := [a, Select(id), Insert(id), Finish(id)];
    assert s[1..] == [Select(id), Insert(id), Finish(id)];
    ThreeSteps(limits, Next(limits, w, a), s[1..]);
  }

  /** Someone new, served in a later window, gets the rows that are three windows older pruned. */
  lemma ServedAlone(limits: Limits, w: World, w': World, id: nat, t: Bucket)
    requires Idle(w) && FreeToInsert(w, id) && w' == InsertsAlone(limits, w, id)
    requires t.key == Target(w.reqs[id]).key && t.window < Target(w.reqs[id]).window - KEPT
    ensures Idle(w') && t !in w'.table && w'.clock == w.clock
    ensures w'.reqs == w.reqs[id := Onward(w.reqs[id].(phase := Inserted))]
    ensures forall b :: b != Target(w.reqs[id]) ==> Ids(w'.admitted, b) == Ids(w.admitted, b)
    ensures forall b :: b in w'.table ==> b in w.table || b == Target(w.reqs[id])
  {
    InsertedAlone(limits, w, id);
    if t in w.table { assert t in Pruned(w, Target(w.reqs[id])); }
  }

  lemma IpRowCleared(limits: Limits, w: World, t: Bucket, b: Bucket) returns (steps: seq<Step>)
    requires Inv(limits, w) && limits.Valid() && Idle(w) && t.key.IpKey?
    ensures Clears(limits, w, Run(limits, w, steps), t, b)
  {
    var id := FreshId(w);
    var now := LateEnough(w, t, b);
    var come := Arrive(id, t.key.address, None, now);
    var w1 := Next(limits, w, come);
    steps := [come, Select(id), Insert(id), Finish(id)];
    FourSteps(limits, w, come, id);
    RunKeeps(limits, w, steps);
    ServedAlone(limits, w1, Run(limits, w, steps), id, t);
  }

  lemma UserRowCleared(limits: Limits, w: World, t: Bucket, b: Bucket) returns (steps: seq<Step>)
    requires Inv(limits, w) && limits.Valid() && Idle(w) && t.key.UserKey? && t.key.id != ""
    ensures Clears(limits, w, Run(limits, w, steps), t, b)
  {
    var id := FreshId(w);
    var now := LateEnough(w, t, b);
    var come := Arrive(id, "", Some(t.key.id), now);
    var w1 := Next(limits, w, come);
    var w2 := InsertsAlone(limits, w1, id);
    FourSteps(limits, w, come, id);
    steps := [come, Select(id), Insert(id), Finish(id)] + [Select(id), Insert(id), Finish(id)];
    ThreeSteps(limits, w2, [Select(id), Insert(id), Finish(id)]);
    RunConcat(limits, w, [come, Select(id), Insert(id), Finish(id)], [Select(id), Insert(id), Finish(id)]);
    RunKeeps(limits, w, steps);
    ServedTwice(limits, w1, id, t);
  }

  /** First for the request's address, then for its user. */
  lemma ServedTwice(limits: Limits, w: World, id: nat, t: Bucket)
    requires Idle(w) && id in w.reqs && HasUser(w.reqs[id]) && t.key == UserKey(w.reqs[id].user.value)
    requires w.reqs[id].phase == Selecting && !w.reqs[id].onUser && w.reqs[id].ending == Running
    requires t.window < w.reqs[id].window - KEPT && forall k: Key :: Bucket(k, w.reqs[id].window) !in w.table
    ensures
      var r := w.reqs[id];
      var w' := InsertsAlone(limits, InsertsAlone(limits, w, id), id);
      && Idle(w') && t !in w'.table && w'.clock == w.clock
      && id in w'.reqs && w'.reqs[id].ending == Served && w'.reqs == w.reqs[id := w'.reqs[id]]
      && forall b: Bucket :: b.window != r.window ==> Ids(w'.admitted, b) == Ids(w.admitted, b)
  {
    ServedForAddress(limits, w, id);
    ServedForUser(limits, InsertsAlone(limits, w, id), id, t);
  }

  lemma ServedForAddress(limits: Limits, w: World, id: nat)
    requires Idle(w) && id in w.reqs && HasUser(w.reqs[id])
    requires w.reqs[id].phase == Selecting && !w.reqs[id].onUser && w.reqs[id].ending == Running
    requires forall k: Key :: Bucket(k, w.reqs[id].window) !in w.table
    ensures
      var r := w.reqs[id];
      var w' := InsertsAlone(limits, w, id);
      && Idle(w') && w'.clock == w.clock && UserBucket(r) !in w'.table
      && w'.reqs == w.reqs[id := r.(onUser := true, retried := false, phase := Selecting)]
      && forall b: Bucket :: b.window != r.window ==> Ids(w'.admitted, b) == Ids(w.admitted, b)
  {
    var r := w.reqs[id];
    ServedAlone(limits, w, InsertsAlone(limits, w, id), id, Bucket(IpKey(r.ip), r.window - KEPT - 1));
  }

  lemma ServedForUser(limits: Limits, w: World, id: nat, t: Bucket)
    requires Idle(w) && id in w.reqs && HasUser(w.reqs[id]) && t.key == UserKey(w.reqs[id].user.value)
    requires w.reqs[id].phase == Selecting && w.reqs[id].onUser
    requires t.window < w.reqs[id].window - KEPT && UserBucket(w.reqs[id]) !in w.table
    ensures
      var r := w.reqs[id];
      var w' := InsertsAlone(limits, w, id);
      && Idle(w') && t !in w'.table && w'.clock == w.clock
      && id in w'.reqs && w'.reqs[id].ending == Served && w'.reqs == w.reqs[id := w'.reqs[id]]
      && forall b: Bucket :: b.window != r.window ==> Ids(w'.admitted, b) == Ids(w.admitted, b)
  {
    ServedAlone(limits, w, InsertsAlone(limits, w, id), id, t);
  }

  lemma RunConcat(limits: Limits, w: World, a: seq<Step>, b: seq<Step>)
    ensures Run(limits, w, a + b) == Run(limits, Run(limits, w, a), b)
  {
    RunSplits(limits, w, a + b, |a|);
    assert (a + b)[..|a|] == a && (a + b)[|a|..] == b;
  }

  lemma RowCleared(limits: Limits, w: World, t: Bucket, b: Bucket) returns (steps: seq<Step>)
    requires Inv(limits, w) && limits.Valid() && Idle(w) && (t.key.UserKey? ==> t.key.id != "")
    ensures Clears(limits, w, Run(limits, w, steps), t, b)
  {
    if t.key.IpKey? { steps := IpRowCleared(limits, w, t, b); } else { steps := UserRowCleared(limits, w, t, b); }
  }

  /** Clearing a row changes nothing for those who hope for bucket `b`. */
  lemma ClearingKeepsReach(limits: Limits, w: World, w': World, t: Bucket, b: Bucket)
    requires Clears(limits, w, w', t, b) && Past(w, b)
    ensures Past(w', b) && Reach(limits, w', b) == Reach(limits, w, b)
  {
    WindowMonotone(w.clock, w'.clock);
    assert Hopeful(limits, w', b) == Hopeful(limits, w, b);
  }

  /** With nothing locked or pending, anyone who hopes gets on, if need be after the row in the way has been pruned. */
  lemma WaitingAdvances(limits: Limits, w: World, b: Bucket, id: nat) returns (steps: seq<Step>)
    requires Inv(limits, w) && limits.Valid() && Past(w, b) && Idle(w)
    requires id in w.reqs && Hopes(limits, w.reqs[id], b)
      && (w.reqs[id].phase == Selecting || w.reqs[id].phase == NoRow)
    ensures Advances(limits, w, Run(limits, w, steps), b)
  {
    var t := Target(w.reqs[id]);
    var s := InsertStep(w.reqs[id], id);
    assert ReqOk(w.reqs[id]);
    var clear := RowCleared(limits, w, t, b);
    var w1 := Run(limits, w, clear);
    ClearingKeepsReach(limits, w, w1, t, b);
    TowardsInsert(limits, w1, b, id);
    StillCloser(limits, w, w1, Next(limits, w1, s), t, b, id);
    steps := clear + [s];
    RunConcat(limits, w, clear, [s]);
    OneStep(limits, w1, s);
  }

  /** A row cleared on the way takes nobody farther from the end. */
  lemma StillCloser(limits: Limits, w: World, w1: World, w2: World, t: Bucket, b: Bucket, id: nat)
    requires Clears(limits, w, w1, t, b) && ComesCloser(w1, w2, id) && id in w.reqs
    ensures Total(w2) < Total(w)
  {
    TotalFalls(w, w2, id);
  }

  /** As long as anyone hopes for bucket `b`, some steps take things forward without disappointing anyone. */
  lemma SomeoneAdvances(limits: Limits, w: World, b: Bucket) returns (steps: seq<Step>)
    requires Inv(limits, w) && limits.Valid() && Past(w, b) && Hopeful(limits, w, b) != {}
    ensures Advances(limits, w, Run(limits, w, steps), b)
  {
    if id :| id in w.reqs && w.reqs[id].ending == Running && !Hopes(limits, w.reqs[id], b) {
      steps := [Die(id)];
      HopelessDies(limits, w, b, id);
      OneStep(limits, w, Die(id));
    } else if id :| id in w.reqs && (w.reqs[id].phase == Inserted || w.reqs[id].phase.Holding?) {
      steps := [Finish(id)];
      AdmittedAdvances(limits, w, b, id);
      OneStep(limits, w, Finish(id));
    } else {
      NobodyOwns(limits, w);
      var id :| id in Hopeful(limits, w, b);
      assert ReqOk(w.reqs[id]);
      steps := WaitingAdvances(limits, w, b, id);
    }
  }

  lemma {:induction false} AllGetIn(limits: Limits, w: World, b: Bucket) returns (steps: seq<Step>)
    requires Inv(limits, w) && limits.Valid() && Past(w, b)
    ensures Ids(Run(limits, w, steps).admitted, b) == Reach(limits, w, b)
    decreases Total(w)
  {
    if Hopeful(limits, w, b) == {} {
      steps := [];
    } else {
      var first := SomeoneAdvances(limits, w, b);
      var rest := AllGetIn(limits, Run(limits, w, first), b);
      RunConcat(limits, w, first, rest);
      steps := first + rest;
    }
  }

  /** After `more` steps, everyone the bucket could still admit has been admitted. */
  ghost predicate AdmitsAll(limits: Limits, w: World, more: seq<Step>, b: Bucket) {
    Ids(Run(limits, w, more).admitted, b) == Reach(limits, w, b)
  }

  /**
   * A window that is over can still come to admit exactly those it has admitted and those who are unfinished, have its
   * bucket before them and do not hold a full row: nobody else whatever happens, and all of them in some continuation.
   */
  lemma MostAPastWindowAdmits(limits: Limits, w: World, b: Bucket)
    requires Inv(limits, w) && limits.Valid() && Past(w, b)
    ensures forall more :: Ids(Run(limits, w, more).admitted, b) <= Reach(limits, w, b)
    ensures exists more :: AdmitsAll(limits, w, more, b)
  {
    forall more
      ensures Ids(Run(limits, w, more).admitted, b) <= Reach(limits, w, b)
    {
      RunKeepsReach(limits, w, more, b);
    }
    EveryoneCanBeAdmitted(limits, w, b);
  }

  lemma EveryoneCanBeAdmitted(limits: Limits, w: World, b: Bucket)
    requires Inv(limits, w) && limits.Valid() && Past(w, b)
    ensures exists more :: AdmitsAll(limits, w, more, b)
  {
    var more := AllGetIn(limits, w, b);
    assert AdmitsAll(limits, w, more, b);
  }

  ghost predicate ExceedsAfter(limits: Limits, w: World, more: seq<Step>, b: Bucket) {
    |Ids(Run(limits, w, more).admitted, b)| > limits.For(b.key)
  }

  ghost predicate CanExceed(limits: Limits, w: World, b: Bucket) { exists more :: ExceedsAfter(limits, w, more, b) }

  lemma PastWindowExceedsIff(limits: Limits, w: World, b: Bucket)
    requires Inv(limits, w) && limits.Valid() && Past(w, b)
    ensures CanExceed(limits, w, b) <==> |Ids(w.admitted, b)| + |Hopeful(limits, w, b)| > limits.For(b.key)
  {
    HopefulAreNew(limits, w, b);
    if more :| ExceedsAfter(limits, w, more, b) {
      RunKeepsReach(limits, w, more, b);
      SubsetSize(Ids(Run(limits, w, more).admitted, b), Reach(limits, w, b));
    }
    var more := AllGetIn(limits, w, b);
    assert |Reach(limits, w, b)| > limits.For(b.key) ==> ExceedsAfter(limits, w, more, b);
  }

  // ---- Windows that are not over ----

  /** A bucket that requests can have: a whole window, and a user's only with a user. */
  ghost predicate Usable(b: Bucket) { b.window % WINDOW == 0 && (b.key.UserKey? ==> b.key.id != "") }

  function ArrivalFor(id: nat, k: Key, at: int): Step {
    match k
    case IpKey(address) => Arrive(id, address, None, at)
    case UserKey(user) => Arrive(id, "", Some(user), at)
  }

  function Newcomer(k: Key, window: int): Req {
    match k
    case IpKey(address) => Req(address, None, window, false, false, Selecting, Running)
    case UserKey(user) => Req("", Some(user), window, false, false, Selecting, Running)
  }

  lemma ArrivalComes(limits: Limits, w: World, id: nat, k: Key, at: int)
    requires id !in w.reqs && w.clock <= at
    ensures Next(limits, w, ArrivalFor(id, k, at)) ==
      w.(clock := at, reqs := w.reqs[id := Newcomer(k, WindowStart(at))])
  {
  }

  lemma NewcomerHopes(limits: Limits, b: Bucket)
    requires Usable(b)
    ensures Hopes(limits, Newcomer(b.key, b.window), b)
  {
  }

  lemma OneArrives(limits: Limits, w: World, b: Bucket, id: nat, at: int)
    requires Usable(b) && id !in w.reqs && w.clock <= at && WindowStart(at) == b.window
    ensures
      var w' := Next(limits, w, ArrivalFor(id, b.key, at));
      w'.clock == at && |Hopeful(limits, w', b)| == |Hopeful(limits, w, b)| + 1
  {
    ArrivalComes(limits, w, id, b.key, at);
    NewcomerHopes(limits, b);
    OneMoreHopes(limits, w, Next(limits, w, ArrivalFor(id, b.key, at)), b, id);
  }

  lemma OneMoreHopes(limits: Limits, w: World, w': World, b: Bucket, id: nat)
    requires id !in w.reqs && id in w'.reqs && w'.reqs == w.reqs[id := w'.reqs[id]] && Hopes(limits, w'.reqs[id], b)
    ensures |Hopeful(limits, w', b)| == |Hopeful(limits, w, b)| + 1
  {
    assert Hopeful(limits, w', b) == Hopeful(limits, w, b) + {id};
  }

  lemma {:induction false} ManyArrive(limits: Limits, w: World, b: Bucket, at: int, n: nat) returns (steps: seq<Step>)
    requires Usable(b) && w.clock <= at && WindowStart(at) == b.window
    ensures Run(limits, w, steps).clock <= at && |Hopeful(limits, Run(limits, w, steps), b)| >= n
  {
    steps := [];
    if n > 0 {
      steps := ManyArrive(limits, w, b, at, n - 1);
      var w1 := Run(limits, w, steps);
      var id := FreshId(w1);
      OneArrives(limits, w1, b, id, at);
      RunConcat(limits, w, steps, [ArrivalFor(id, b.key, at)]);
      OneStep(limits, w1, ArrivalFor(id, b.key, at));
      steps := steps + [ArrivalFor(id, b.key, at)];
    }
  }

  lemma WindowEnds(limits: Limits, w: World, b: Bucket, id: nat, at: int)
    requires id !in w.reqs && w.clock <= at && WindowStart(at) == b.window
    ensures
      var w' := Next(limits, w, Arrive(id, "", None, at + WINDOW));
      Past(w', b) && Hopeful(limits, w, b) <= Hopeful(limits, w', b)
  {
    assert WindowStart(at + WINDOW) == WindowStart(at) + WINDOW;
  }

  lemma CurrentWindowExceeds(limits: Limits, w: World, b: Bucket)
    requires Inv(limits, w) && limits.Valid() && Usable(b) && !Past(w, b)
    ensures CanExceed(limits, w, b)
  {
    var at := Max(w.clock, b.window);
    InWindow(b.window, at);
    InWindow(WindowStart(w.clock), w.clock);
    var crowd := ManyArrive(limits, w, b, at, limits.For(b.key) + 1);
    var w1 := Run(limits, w, crowd);
    var id := FreshId(w1);
    var late := Arrive(id, "", None, at + WINDOW);
    WindowEnds(limits, w1, b, id, at);
    RunKeeps(limits, w, crowd);
    StepKeeps(limits, w1, late);
    var w2 := Next(limits, w1, late);
    SubsetSize(Hopeful(limits, w1, b), Hopeful(limits, w2, b));
    PastWindowExceedsIff(limits, w2, b);
    var more :| ExceedsAfter(limits, w2, more, b);
    RunConcat(limits, w, crowd, [late]);
    OneStep(limits, w1, late);
    RunConcat(limits, w, crowd + [late], more);
    assert ExceedsAfter(limits, w, crowd + [late] + more, b);
  }

  /**
   * From any reachable state a window can still come to exceed its limit exactly when it is not over yet, or when those
   * it has admitted and those who are unfinished and may still be admitted are together more than the limit.
   */
  lemma ExceedsIff(limits: Limits, clock: int, steps: seq<Step>, b: Bucket)
    requires limits.Valid() && Usable(b)
    ensures
      var w := Run(limits, Start(clock), steps);
      CanExceed(limits, w, b) <==> !Past(w, b) || |Ids(w.admitted, b)| + |Hopeful(limits, w, b)| > limits.For(b.key)
  {
    RunKeeps(limits, Start(clock), steps);
    var w := Run(limits, Start(clock), steps);
    if Past(w, b) { PastWindowExceedsIff(limits, w, b); } else { CurrentWindowExceeds(limits, w, b); }
  }
}
