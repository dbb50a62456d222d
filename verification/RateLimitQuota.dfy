/** What the concurrent rate limiter guarantees over whole runs, and where it stops guaranteeing it. */
module RateLimitQuota {
  import opened Common
  import opened RateLimit
  import opened RateLimitRace

  /**
   * No update is lost under any interleaving: a committed row's count is the number of distinct requests the row has
   * admitted, and it never exceeds the limit.
   */
  lemma RowsCountTheirAdmissions(limits: Limits, clock: int, steps: seq<Step>, b: Bucket)
    requires limits.Valid() && b in Run(limits, Start(clock), steps).table
    ensures
      var w := Run(limits, Start(clock), steps);
      && w.table[b] == |Ids(w.since, b)| && Ids(w.since, b) <= Ids(w.admitted, b)
        && 1 <= w.table[b] <= limits.For(b.key)
      && |Ids(w.admitted, b)| == w.table[b] + |Ids(w.admitted, b) - Ids(w.since, b)|
  {
    RunKeeps(limits, Start(clock), steps);
    var w := Run(limits, Start(clock), steps);
    assert RowCounts(limits, w, b);
    PartsAddUp(Ids(w.admitted, b), Ids(w.since, b));
  }

  lemma PartsAddUp<T>(a: set<T>, b: set<T>)
    requires b <= a
    ensures |a| == |b| + |a - b|
  {
    assert a == b + (a - b);
  }

  /**
   * A served request spent one unit of each of its scopes, an IP-blocked one nothing, a user-blocked one an IP
   * unit only.
   */
  lemma EndingsDecideSpending(limits: Limits, clock: int, steps: seq<Step>, id: nat)
    requires limits.Valid() && id in Run(limits, Start(clock), steps).reqs
    ensures
      var w := Run(limits, Start(clock), steps);
      var r := w.reqs[id];
      && (r.ending == Served ==> id in Ids(w.admitted, IpBucket(r)))
      && (r.ending == Served && HasUser(r) ==> id in Ids(w.admitted, UserBucket(r)))
      && (r.ending == IpBlocked ==> forall b :: id !in Ids(w.admitted, b))
      && (r.ending == UserBlocked ==> HasUser(r) && forall b :: id in Ids(w.admitted, b) <==> b == IpBucket(r))
  {
    RunKeeps(limits, Start(clock), steps);
    var w := Run(limits, Start(clock), steps);
    assert ReqOk(w.reqs[id]);
    assert forall b :: id in Ids(w.admitted, b) <==> b in Spends(w.reqs[id]);
  }

  // ---- Across pruning ----

  ghost predicate MayUse(r: Req, b: Bucket)
  {
    r.ending == Running && (b == IpBucket(r) || (HasUser(r) && b == UserBucket(r)))
  }

  /** Nobody unfinished may use what a commit for bucket `b` prunes. */
  ghost predicate PrunesUnused(w: World, b: Bucket) {
    forall p, i :: p in Pruned(w, b) && i in w.reqs ==> !MayUse(w.reqs[i], p)
  }

  /**
   * A commit prunes no bucket that an unfinished request may still use: no request outlives its window by two
   * minutes.
   */
  ghost predicate Timely(w: World, s: Step) {
    s.Finish? && Enabled(w, s) ==>
      PrunesUnused(w, Target(w.reqs[s.id]))
  }

  ghost predicate TimelyRun(limits: Limits, w: World, steps: seq<Step>)
    decreases |steps|
  {
    steps != [] ==> Timely(w, steps[0]) && TimelyRun(limits, Next(limits, w, steps[0]), steps[1..])
  }

  /** A bucket without a row that has admitted requests is closed: nobody may use it any more. */
  ghost predicate Closed(limits: Limits, w: World, b: Bucket) {
    && |Ids(w.admitted, b)| <= limits.For(b.key)
    && (Ids(w.admitted, b) != {} ==> b.window < WindowStart(w.clock))
    && (Ids(w.admitted, b) != {} ==> forall id :: id in w.reqs ==> !MayUse(w.reqs[id], b))
  }

  ghost predicate NeverReopened(limits: Limits, w: World) {
    && (forall id :: id in w.reqs ==> w.reqs[id].window <= WindowStart(w.clock))
    && (forall b :: b in w.table ==> Ids(w.admitted, b) == Ids(w.since, b))
    && (forall b :: b !in w.table ==> Closed(limits, w, b))
  }

  lemma QuietKeepsClosed(limits: Limits, w: World, w': World, id: nat)
    requires NeverReopened(limits, w) && w'.table == w.table && w'.admitted == w.admitted && w'.since == w.since
    requires w.clock <= w'.clock && id in w'.reqs && w'.reqs == w.reqs[id := w'.reqs[id]]
    requires w'.reqs[id].window <= WindowStart(w'.clock)
    requires
      if id in w.reqs then forall b :: MayUse(w'.reqs[id], b) ==> MayUse(w.reqs[id], b)
      else w'.reqs[id].window >= WindowStart(w.clock)
    ensures NeverReopened(limits, w')
  {
    WindowMonotone(w.clock, w'.clock);
    forall b | b !in w'.table
      ensures Closed(limits, w', b)
    {
      assert Closed(limits, w, b);
    }
  }

  /** An admission lets the request use no bucket it could not use before. */
  lemma AdmitUses(w: World, id: nat, count: nat, isNew: bool, c: Bucket)
    requires id in w.reqs && w.reqs[id].ending == Running
    requires forall i :: i in w.reqs ==> !MayUse(w.reqs[i], c)
    ensures forall i :: i in Admit(w, id, count, isNew).reqs ==> !MayUse(Admit(w, id, count, isNew).reqs[i], c)
  {
  }

  lemma ClosedAfterAdmit(limits: Limits, w: World, id: nat, count: nat, isNew: bool, c: Bucket)
    requires Counts(limits, w) && NeverReopened(limits, w) && id in w.reqs && w.reqs[id].ending == Running
    requires PrunesUnused(w, Target(w.reqs[id])) && c !in Admit(w, id, count, isNew).table
    ensures Closed(limits, Admit(w, id, count, isNew), c)
  {
    var b := Target(w.reqs[id]);
    assert b !in Pruned(w, b) && c != b;
    if c in w.table {
      assert RowCounts(limits, w, c);
      assert c in Pruned(w, b) && c.window < b.window;
      AdmitUses(w, id, count, isNew, c);
    } else {
      assert Closed(limits, w, c);
      if Ids(w.admitted, c) != {} { AdmitUses(w, id, count, isNew, c); }
    }
  }

  lemma AdmitKeepsClosed(limits: Limits, w: World, id: nat, count: nat, isNew: bool)
    requires Counts(limits, w) && NeverReopened(limits, w) && id in w.reqs && w.reqs[id].ending == Running
      && ReqOk(w.reqs[id])
    requires PrunesUnused(w, Target(w.reqs[id])) && (isNew <==> Target(w.reqs[id]) !in w.table)
    ensures NeverReopened(limits, Admit(w, id, count, isNew))
  {
    var b := Target(w.reqs[id]);
    var w' := Admit(w, id, count, isNew);
    assert MayUse(w.reqs[id], b);
    if isNew { assert Closed(limits, w, b); }
    forall c | c !in w'.table ensures Closed(limits, w', c) { ClosedAfterAdmit(limits, w, id, count, isNew, c); }
  }

  /** `w'` is `w` with request `id` moved within its scope or ended without admission. */
  ghost predicate MovesQuietly(w: World, w': World, id: nat) {
    && w'.table == w.table && w'.admitted == w.admitted && w'.since == w.since && w'.clock == w.clock
    && id in w.reqs && id in w'.reqs && w'.reqs == w.reqs[id := w'.reqs[id]]
    && w'.reqs[id].ip == w.reqs[id].ip && w'.reqs[id].user == w.reqs[id].user && w'.reqs[id].window == w.reqs[id].window
  }

  /** A step within a scope, or an end without admission, lets the request use no bucket it could not use before. */
  lemma QuietMoveKeepsClosed(limits: Limits, w: World, w': World, id: nat)
    requires NeverReopened(limits, w) && MovesQuietly(w, w', id) && w.reqs[id].ending == Running
    ensures NeverReopened(limits, w')
  {
    QuietKeepsClosed(limits, w, w', id);
  }

  lemma FinishKeepsClosed(limits: Limits, w: World, id: nat)
    requires LocksHeld(w) && Counts(limits, w) && NeverReopened(limits, w)
    requires id in w.reqs && (w.reqs[id].phase == Inserted || w.reqs[id].phase.Holding?) && w.reqs[id].ending == Running
      && ReqOk(w.reqs[id])
    requires PrunesUnused(w, Target(w.reqs[id]))
    ensures NeverReopened(limits, Finished(limits, w, id))
  {
    var r := w.reqs[id];
    var b := Target(r);
    assert OwnsWhatItNeeds(w, id);
    if r.phase == Inserted {
      assert PendingOk(w, b);
      AdmitKeepsClosed(limits, w, id, 1, true);
    } else {
      assert LockOk(w, b);
      if r.phase.count < limits.For(b.key) {
        AdmitKeepsClosed(limits, w, id, r.phase.count + 1, false);
      } else {
        assert MovesQuietly(w, Finished(limits, w, id), id);
        QuietMoveKeepsClosed(limits, w, Finished(limits, w, id), id);
      }
    }
  }

  lemma ArriveKeepsClosed(limits: Limits, w: World, id: nat, ip: string, user: Option<string>, now: int)
    requires NeverReopened(limits, w) && id !in w.reqs && now >= w.clock
    ensures NeverReopened(limits, Arrived(w, id, ip, user, now))
  {
    WindowMonotone(w.clock, now);
    QuietKeepsClosed(limits, w, Arrived(w, id, ip, user, now), id);
  }

  lemma SelectIsQuiet(w: World, id: nat)
    requires id in w.reqs
    ensures MovesQuietly(w, Selected(w, id), id)
  {
  }

  lemma InsertIsQuiet(w: World, id: nat)
    requires id in w.reqs
    ensures MovesQuietly(w, InsertTried(w, id), id)
  {
  }

  lemma DieIsQuiet(w: World, id: nat)
    requires id in w.reqs
    ensures MovesQuietly(w, Dead(w, id), id)
  {
  }

  lemma StepKeepsClosed(limits: Limits, w: World, s: Step)
    requires Inv(limits, w) && NeverReopened(limits, w) && Timely(w, s)
    ensures NeverReopened(limits, Next(limits, w, s))
  {
    if Enabled(w, s) {
      match s
      case Arrive(id, ip, user, now) => ArriveKeepsClosed(limits, w, id, ip, user, now);
      case Finish(id) => assert ReqOk(w.reqs[id]); FinishKeepsClosed(limits, w, id);
      case Select(id) => assert ReqOk(w.reqs[id]); SelectIsQuiet(w, id);
      QuietMoveKeepsClosed(limits, w, Selected(w, id), id);
      case Insert(id) => assert ReqOk(w.reqs[id]); InsertIsQuiet(w, id);
      QuietMoveKeepsClosed(limits, w, InsertTried(w, id), id);
      case Die(id) => assert ReqOk(w.reqs[id]); DieIsQuiet(w, id); QuietMoveKeepsClosed(limits, w, Dead(w, id), id);
    }
  }

  lemma {:induction false} RunKeepsClosed(limits: Limits, w: World, steps: seq<Step>)
    requires Inv(limits, w) && limits.Valid() && NeverReopened(limits, w) && TimelyRun(limits, w, steps)
    ensures NeverReopened(limits, Run(limits, w, steps))
    decreases |steps|
  {
    if steps != [] {
      StepKeeps(limits, w, steps[0]);
      StepKeepsClosed(limits, w, steps[0]);
      RunKeepsClosed(limits, Next(limits, w, steps[0]), steps[1..]);
    }
  }

  /** If no request outlives its window by more than the pruning horizon, no bucket ever admits more than its limit. */
  lemma TimelyRunsStayWithinTheLimit(limits: Limits, clock: int, steps: seq<Step>, b: Bucket)
    requires limits.Valid() && TimelyRun(limits, Start(clock), steps)
    ensures |Ids(Run(limits, Start(clock), steps).admitted, b)| <= limits.For(b.key)
  {
    RunKeeps(limits, Start(clock), steps);
    RunKeepsClosed(limits, Start(clock), steps);
    var w := Run(limits, Start(clock), steps);
    if b in w.table { assert RowCounts(limits, w, b); } else { assert Closed(limits, w, b); }
  }

  // ---- A request that outlives its bucket ----

  /** Nothing is in the way of request `id` inserting a row for its bucket. */
  ghost predicate FreeToInsert(w: World, id: nat) {
    && id in w.reqs && w.reqs[id].phase == Selecting
    && var b := Target(w.reqs[id]);
    b !in w.table && b !in w.locks && b !in w.pending && Pruned(w, b) * w.locks.Keys == {}
  }

  function InsertsAlone(limits: Limits, w: World, id: nat): World {
    Next(limits, Next(limits, Next(limits, w, Select(id)), Insert(id)), Finish(id))
  }

  lemma SelectFindsNoRow(limits: Limits, w: World, id: nat)
    requires FreeToInsert(w, id)
    ensures Next(limits, w, Select(id)) == Put(w, id, w.reqs[id].(phase := NoRow))
  {
  }

  lemma InsertBecomesPending(limits: Limits, w: World, id: nat)
    requires id in w.reqs && w.reqs[id].phase == NoRow && Target(w.reqs[id]) !in w.pending
      && Target(w.reqs[id]) !in w.table
    ensures Next(limits, w, Insert(id)) ==
      Put(w.(pending := w.pending[Target(w.reqs[id]) := id]), id, w.reqs[id].(phase := Inserted))
  {
  }

  lemma FinishCommits(limits: Limits, w: World, id: nat)
    requires id in w.reqs && w.reqs[id].phase == Inserted && Pruned(w, Target(w.reqs[id])) * w.locks.Keys == {}
    ensures Next(limits, w, Finish(id)) == Admit(w, id, 1, true)
  {
  }

  function WithPending(w: World, id: nat): World
    requires id in w.reqs
  {
    Put(w.(pending := w.pending[Target(w.reqs[id]) := id]), id, w.reqs[id].(phase := Inserted))
  }

  lemma PendingAfterSelect(w: World, id: nat)
    requires id in w.reqs
    ensures WithPending(Put(w, id, w.reqs[id].(phase := NoRow)), id) == WithPending(w, id)
  {
    var r := w.reqs[id];
    assert w.reqs[id := r.(phase := NoRow)][id := r.(phase := Inserted)] == w.reqs[id := r.(phase := Inserted)];
  }

  lemma InsertsAloneCommits(limits: Limits, w: World, id: nat)
    requires FreeToInsert(w, id)
    ensures InsertsAlone(limits, w, id) == Admit(WithPending(w, id), id, 1, true)
  {
    SelectFindsNoRow(limits, w, id);
    var w1 := Put(w, id, w.reqs[id].(phase := NoRow));
    InsertBecomesPending(limits, w1, id);
    PendingAfterSelect(w, id);
    FinishCommits(limits, WithPending(w, id), id);
  }

  lemma AdmittedFromPending(w: World, id: nat)
    requires FreeToInsert(w, id)
    ensures
      var b := Target(w.reqs[id]);
      var w' := Admit(WithPending(w, id), id, 1, true);
      && w'.table == w.table[b := 1] - Pruned(w, b) && w'.locks == w.locks && w'.pending == w.pending
        && w'.clock == w.clock
      && w'.reqs == w.reqs[id := Onward(w.reqs[id].(phase := Inserted))]
      && w'.admitted == w.admitted[b := Ids(w.admitted, b) + {id}]
  {
    var b := Target(w.reqs[id]);
    var w1 := WithPending(w, id);
    assert Target(w1.reqs[id]) == b;
    assert Pruned(w1, b) == Pruned(w, b);
    assert w.pending[b := id] - {b} == w.pending && w.locks - {b} == w.locks;
    assert w1.reqs[id := Onward(w1.reqs[id])] == w.reqs[id := Onward(w1.reqs[id])];
  }

  lemma InsertedAlone(limits: Limits, w: World, id: nat)
    requires FreeToInsert(w, id)
    ensures
      var b := Target(w.reqs[id]);
      var w' := InsertsAlone(limits, w, id);
      && w'.table == w.table[b := 1] - Pruned(w, b) && w'.locks == w.locks && w'.pending == w.pending
        && w'.clock == w.clock
      && w'.reqs == w.reqs[id := Onward(w.reqs[id].(phase := Inserted))]
      && w'.admitted == w.admitted[b := Ids(w.admitted, b) + {id}]
  {
    InsertsAloneCommits(limits, w, id);
    AdmittedFromPending(w, id);
  }

  /**
   * Without timeliness the limit is not kept: a request still waiting to select when its bucket has been pruned is
   * admitted whatever the bucket admitted before, a full quota included.
   */
  lemma StalledRequestIsAdmittedAnyway(limits: Limits, w: World, id: nat)
    requires Inv(limits, w) && FreeToInsert(w, id)
    ensures
      var b := Target(w.reqs[id]);
      var w' := InsertsAlone(limits, w, id);
      && |Ids(w'.admitted, b)| == |Ids(w.admitted, b)| + 1
      && (|Ids(w.admitted, b)| == limits.For(b.key) ==> |Ids(w'.admitted, b)| > limits.For(b.key))
  {
    var b := Target(w.reqs[id]);
    InsertedAlone(limits, w, id);
    assert ReqOk(w.reqs[id]);
    assert b !in Spends(w.reqs[id]);
    assert id !in Ids(w.admitted, b);
  }

  function Waiting(ip: string, window: int): Req { Req(ip, None, window, false, false, Selecting, Running) }

  /** An otherwise idle table: no locks and no pending inserts. */
  ghost predicate Idle(w: World) { w.locks == map[] && w.pending == map[] }

  lemma ArrivalWaits(limits: Limits, w: World, id: nat, ip: string, now: int)
    requires id !in w.reqs && now >= w.clock && Idle(w)
    ensures
      var w' := Next(limits, w, Arrive(id, ip, None, now));
      && Idle(w') && w'.clock == now && w'.table == w.table && w'.admitted == w.admitted
      && w'.reqs == w.reqs[id := Waiting(ip, WindowStart(now))]
  {
  }

  /** Request 0 takes the quota of window 0 while request 1 has not got going. */
  lemma FirstStage(limits: Limits, ip: string)
    ensures
      var w := InsertsAlone(limits, Next(limits, Next(limits, Start(0), Arrive(0, ip, None, 0)),
          Arrive(1, ip, None, 0)), 0);
      var b := Bucket(IpKey(ip), 0);
      && Idle(w) && w.clock == 0 && w.table == map[b := 1] && Ids(w.admitted, b) == {0}
      && 1 in w.reqs && w.reqs[1] == Waiting(ip, 0) && 2 !in w.reqs
  {
    ArrivalWaits(limits, Start(0), 0, ip, 0);
    var w1 := Next(limits, Start(0), Arrive(0, ip, None, 0));
    ArrivalWaits(limits, w1, 1, ip, 0);
    InsertedAlone(limits, Next(limits, w1, Arrive(1, ip, None, 0)), 0);
  }

  /** Three minutes later request 2 is admitted and prunes window 0. */
  lemma SecondStage(limits: Limits, w: World, ip: string)
    requires var b := Bucket(IpKey(ip), 0);
      && Idle(w) && w.clock == 0 && w.table == map[b := 1] && Ids(w.admitted, b) == {0}
      && 1 in w.reqs && w.reqs[1] == Waiting(ip, 0) && 2 !in w.reqs
    ensures
      var w' := InsertsAlone(limits, Next(limits, w, Arrive(2, ip, None, 3 * WINDOW)), 2);
      var b := Bucket(IpKey(ip), 0);
      && Idle(w') && b !in w'.table && Ids(w'.admitted, b) == {0} && 1 in w'.reqs && w'.reqs[1] == Waiting(ip, 0)
  {
    ArrivalWaits(limits, w, 2, ip, 3 * WINDOW);
    var w1 := Next(limits, w, Arrive(2, ip, None, 3 * WINDOW));
    assert WindowStart(3 * WINDOW) == 3 * WINDOW;
    InsertedAlone(limits, w1, 2);
    assert Bucket(IpKey(ip), 0) in Pruned(w1, Bucket(IpKey(ip), 3 * WINDOW));
  }

  /**
   * It does happen: with a limit of one, request 1 stalls, request 0 takes the quota, and request 2 prunes its
   * record.
   */
  lemma OverAdmissionHappens(ip: string)
    ensures exists steps :: |Ids(Run(Limits(1, 1), Start(0), steps).admitted, Bucket(IpKey(ip), 0))| == 2
  {
    var limits := Limits(1, 1);
    var b := Bucket(IpKey(ip), 0);
    var w1 := InsertsAlone(limits, Next(limits, Next(limits, Start(0), Arrive(0, ip, None, 0)),
        Arrive(1, ip, None, 0)), 0);
    FirstStage(limits, ip);
    var w2 := InsertsAlone(limits, Next(limits, w1, Arrive(2, ip, None, 3 * WINDOW)), 2);
    SecondStage(limits, w1, ip);
    InsertedAlone(limits, w2, 1);
    assert Ids(InsertsAlone(limits, w2, 1).admitted, b) == {0, 1};
    ScriptRuns(limits, ip);
    assert |Ids(Run(limits, Start(0), Script(ip)).admitted, b)| == 2;
  }

  function Script(ip: string): seq<Step> {
    [Arrive(0, ip, None, 0), Arrive(1, ip, None, 0), Select(0), Insert(0), Finish(0), Arrive(2, ip, None, 3 * WINDOW),
     Select(2), Insert(2), Finish(2), Select(1), Insert(1), Finish(1)]
  }

  lemma ScriptRuns(limits: Limits, ip: string)
    ensures
      var w1 := InsertsAlone(limits, Next(limits, Next(limits, Start(0), Arrive(0, ip, None, 0)),
          Arrive(1, ip, None, 0)), 0);
      var w2 := InsertsAlone(limits, Next(limits, w1, Arrive(2, ip, None, 3 * WINDOW)), 2);
      Run(limits, Start(0), Script(ip)) == InsertsAlone(limits, w2, 1)
  {
    TwelveSteps(limits, Start(0), Script(ip));
  }

  lemma TwelveSteps(limits: Limits, w: World, s: seq<Step>)
    requires |s| == 12
    ensures
      var w3 := Next(limits, Next(limits, Next(limits, w, s[0]), s[1]), s[2]);
      var w6 := Next(limits, Next(limits, Next(limits, w3, s[3]), s[4]), s[5]);
      var w9 := Next(limits, Next(limits, Next(limits, w6, s[6]), s[7]), s[8]);
      Run(limits, w, s) == Next(limits, Next(limits, Next(limits, w9, s[9]), s[10]), s[11])
  {
    RunSplits(limits, w, s, 3);
    ThreeSteps(limits, w, s[..3]);
    var w3 := Run(limits, w, s[..3]);
    RunSplits(limits, w3, s[3..], 3);
    ThreeSteps(limits, w3, s[3..][..3]);
    var w6 := Run(limits, w3, s[3..][..3]);
    RunSplits(limits, w6, s[3..][3..], 3);
    ThreeSteps(limits, w6, s[3..][3..][..3]);
    var w9 := Run(limits, w6, s[3..][3..][..3]);
    ThreeSteps(limits, w9, s[3..][3..][3..]);
  }

  lemma ThreeSteps(limits: Limits, w: World, s: seq<Step>)
    requires |s| == 3
    ensures Run(limits, w, s) == Next(limits, Next(limits, Next(limits, w, s[0]), s[1]), s[2])
  {
    assert s[1..][1..] == [s[2]] && s[1..][1..][1..] == [];
    var w1 := Next(limits, w, s[0]);
    var w2 := Next(limits, w1, s[1]);
    assert Run(limits, w, s) == Run(limits, w1, s[1..]);
    assert Run(limits, w1, s[1..]) == Run(limits, w2, s[1..][1..]);
  }

  lemma {:induction false} RunSplits(limits: Limits, w: World, s: seq<Step>, n: nat)
    requires n <= |s|
    ensures Run(limits, w, s) == Run(limits, Run(limits, w, s[..n]), s[n..])
    decreases n
  {
    if n == 0 {
      assert s[..0] == [] && s[0..] == s;
    } else {
      RunSplits(limits, Next(limits, w, s[0]), s[1..], n - 1);
      assert s[..n][1..] == s[1..][..n - 1] && s[1..][n - 1..] == s[n..];
    }
  }
}
