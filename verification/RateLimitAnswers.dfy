/**
 * What a request is answered, read off the counts of the current minute, and what it leaves in the table; what becomes
 * of a burst of one user; and that a request nobody interferes with does statement by statement what it does in one go.
 */
module RateLimitAnswers {
  import opened Common
  import opened RateLimit
  import Race = RateLimitRace

  /** The bucket of a key for the minute `now` lies in. */
  ghost function ThisMinute(k: Key, now: int): Bucket { Bucket(k, now / 60_000_000 * 60_000_000) }

  ghost function Used(t: Table, k: Key, now: int): nat {
    if ThisMinute(k, now) in t then t[ThisMinute(k, now)] else 0
  }

  ghost predicate SignedIn(q: Request) { q.user.Some? && q.user.value != "" }

  lemma WindowIsTheMinute(k: Key, now: int)
    ensures Bucket(k, WindowStart(now)) == ThisMinute(k, now)
  {
    assert now == now / 60_000_000 * 60_000_000 + now % 60_000_000;
  }

  /**
   * The IP's quota is asked first and the user's only after it; whoever finds quota left takes one unit, and the answer
   * names the scope that had none.
   */
  lemma CountsDecideTheAnswer(limits: Limits, t: Table, q: Request)
    requires limits.Valid()
    ensures
      var o := Enforce(Consume, limits, t, q);
      var ip := Used(t, IpKey(q.ip), q.now);
      && (o.decision == BlockedIp <==> ip >= limits.ip)
      && (o.decision == BlockedUser <==>
            ip < limits.ip && SignedIn(q) && Used(t, UserKey(q.user.value), q.now) >= limits.user)
      && (o.decision == Passed <==>
            ip < limits.ip && (SignedIn(q) ==> Used(t, UserKey(q.user.value), q.now) < limits.user))
      && Used(o.t, IpKey(q.ip), q.now) == (if o.decision == BlockedIp then ip else ip + 1)
      && (SignedIn(q) ==>
            Used(o.t, UserKey(q.user.value), q.now) ==
              Used(t, UserKey(q.user.value), q.now) + (if o.decision == Passed then 1 else 0))
  {
    WindowIsTheMinute(IpKey(q.ip), q.now);
    if q.user.Some? { WindowIsTheMinute(UserKey(q.user.value), q.now); }
  }

  /** What a scope's check reports: whether its quota is used up, what is left of it, and the end of the minute. */
  lemma CheckReports(t: Table, k: Key, limit: nat, now: int)
    requires limit >= 1
    ensures
      var s := Consume(t, k, limit, now).1;
      && (s.exceeded <==> Used(t, k, now) >= limit)
      && s.remaining == (if s.exceeded then 0 else limit - Used(t, k, now) - 1)
      && s.resetAt == ThisMinute(k, now).window + 60_000_000
  {
    WindowIsTheMinute(k, now);
  }

  /** What is recorded as spent is exactly the units taken. */
  lemma SpentAsAnswered(limits: Limits, t: Table, q: Request)
    ensures
      var o := Enforce(Consume, limits, t, q);
      && (o.decision == BlockedIp ==> o.spent == [])
      && (o.decision == BlockedUser || (o.decision == Passed && !SignedIn(q)) ==>
            o.spent == [Admission(IpKey(q.ip), q.now)])
      && (o.decision == Passed && SignedIn(q) ==>
            o.spent == [Admission(IpKey(q.ip), q.now), Admission(UserKey(q.user.value), q.now)])
  {
  }

  /** Every other bucket keeps its count, unless it is of a key that was charged and more than two minutes old. */
  lemma OtherBuckets(limits: Limits, t: Table, q: Request, b: Bucket)
    requires b != ThisMinute(IpKey(q.ip), q.now) && (SignedIn(q) ==> b != ThisMinute(UserKey(q.user.value), q.now))
    ensures
      var o := Enforce(Consume, limits, t, q);
      var charged := (b.key == IpKey(q.ip) && o.decision != BlockedIp)
                     || (SignedIn(q) && b.key == UserKey(q.user.value) && o.decision == Passed);
      && (b in o.t <==> b in t && !(charged && b.window < ThisMinute(b.key, q.now).window - 120_000_000))
      && (b in o.t ==> o.t[b] == t[b])
  {
    WindowIsTheMinute(IpKey(q.ip), q.now);
    if q.user.Some? { WindowIsTheMinute(UserKey(q.user.value), q.now); }
  }

  // ---- A burst of one user ----

  /** How request number `j` of a burst is answered. */
  ghost function BurstAnswer(limits: Limits, j: nat): Decision {
    if j >= limits.ip then BlockedIp else if j >= limits.user then BlockedUser else Passed
  }

  ghost predicate BurstCounts(limits: Limits, t: Table, q: Request, n: nat) {
    && SignedIn(q)
    && Used(t, IpKey(q.ip), q.now) == Min(n, limits.ip)
    && Used(t, UserKey(q.user.value), q.now) == Min(n, Min(limits.user, limits.ip))
  }

  lemma OneMoreOfTheBurst(limits: Limits, t: Table, q: Request, n: nat, o: Reply)
    requires limits.Valid() && BurstCounts(limits, t, q, n) && o == Enforce(Consume, limits, t, q)
    ensures o.decision == BurstAnswer(limits, n) && BurstCounts(limits, o.t, q, n + 1)
  {
    CountsDecideTheAnswer(limits, t, q);
  }

  /** The first `n` requests of the burst have been answered as they should, and counted. */
  ghost predicate BurstSoFar(limits: Limits, s: Trace, q: Request, n: nat) {
    && |s.decisions| == n && (forall j :: 0 <= j < n ==> s.decisions[j] == BurstAnswer(limits, j))
    && BurstCounts(limits, s.t, q, n)
  }

  lemma BurstGoesOn(limits: Limits, s: Trace, q: Request, n: nat)
    requires limits.Valid() && BurstSoFar(limits, s, q, n)
    ensures BurstSoFar(limits, Extend(limits, s, q), q, n + 1)
  {
    OneMoreOfTheBurst(limits, s.t, q, n, Enforce(Consume, limits, s.t, q));
  }

  /**
   * A burst of one signed-in user into an unused minute passes up to the user's limit, is cut off there for the user,
   * and, as each such rejection still costs the IP a unit, for the IP once its own limit is reached.
   */
  lemma {:induction false} UserBurstIsCutOff(limits: Limits, q: Request, n: nat)
    requires limits.Valid() && SignedIn(q)
    ensures BurstSoFar(limits, Serve(Consume, limits, Repeat(q, n)), q, n)
  {
    if n > 0 {
      UserBurstIsCutOff(limits, q, n - 1);
      ServedOnceMore(limits, Repeat(q, n - 1), q);
      BurstGoesOn(limits, Serve(Consume, limits, Repeat(q, n - 1)), q, n - 1);
    }
  }

  // ---- Statement by statement ----

  ghost function EndingOf(d: Decision): Race.Ending {
    match d
    case Passed => Race.Served
    case BlockedIp => Race.IpBlocked
    case BlockedUser => Race.UserBlocked
  }

  /** The statements of one request; those that do not apply are not taken. */
  function OneScope(id: nat): seq<Race.Step> { [Race.Select(id), Race.Insert(id), Race.Finish(id)] }

  /** Nobody is in the middle of a transaction. */
  ghost predicate Quiet(w: Race.World) { w.locks == map[] && w.pending == map[] }

  ghost predicate AboutToSelect(w: Race.World, id: nat, r: Race.Req) {
    Quiet(w) && id in w.reqs && w.reqs[id] == r && r.phase == Race.Selecting && r.ending == Race.Running
  }

  /** The scope's check left the world as it leaves the table, and the request where it sends it. */
  ghost predicate ChecksOneScope(limits: Limits, w: Race.World, w': Race.World, id: nat, r: Race.Req) {
    var k := Race.Target(r).key;
    var (t, s) := Consume(w.table, k, limits.For(k), w.clock);
    && w'.table == t && Quiet(w') && w'.clock == w.clock && id in w'.reqs
    && w'.reqs[id] == if s.exceeded then Race.Blocked(r) else Race.Onward(r)
  }

  lemma LockedAndFinished(limits: Limits, w: Race.World, id: nat, r: Race.Req)
    requires AboutToSelect(w, id, r) && r.window == WindowStart(w.clock) && Race.Target(r) in w.table
    ensures
      var w1 := Race.Next(limits, w, Race.Select(id));
      Race.Next(limits, w1, Race.Insert(id)) == w1
      && ChecksOneScope(limits, w, Race.Next(limits, w1, Race.Finish(id)), id, r)
  {
    var w1 := Race.Next(limits, w, Race.Select(id));
    assert w1.locks == map[Race.Target(r) := id];
    assert w1.locks - {Race.Target(r)} == map[];
    assert Race.Pruned(w1, Race.Target(r)) * w1.locks.Keys == {};
  }

  /** Request `id` has inserted its row, which is not committed yet. */
  ghost predicate HasInserted(w: Race.World, w2: Race.World, id: nat, r: Race.Req) {
    && w2.locks == map[] && w2.pending == map[Race.Target(r) := id] && w2.table == w.table && w2.clock == w.clock
    && id in w2.reqs && w2.reqs[id] == r.(phase := Race.Inserted)
  }

  lemma SelectsNothing(limits: Limits, w: Race.World, id: nat, r: Race.Req)
    requires AboutToSelect(w, id, r) && Race.Target(r) !in w.table
    ensures HasInserted(w, Race.Next(limits, Race.Next(limits, w, Race.Select(id)), Race.Insert(id)), id, r)
  {
  }

  lemma InsertedAndFinished(limits: Limits, w: Race.World, w2: Race.World, id: nat, r: Race.Req)
    requires AboutToSelect(w, id, r) && r.window == WindowStart(w.clock) && Race.Target(r) !in w.table
    requires HasInserted(w, w2, id, r)
    ensures ChecksOneScope(limits, w, Race.Next(limits, w2, Race.Finish(id)), id, r)
  {
    assert w2.pending - {Race.Target(r)} == map[];
    assert Race.Pruned(w2, Race.Target(r)) * w2.locks.Keys == {};
  }

  /** One scope, uninterrupted, is the scope's check in one go. */
  lemma ScopeInOneGo(limits: Limits, w: Race.World, id: nat, r: Race.Req)
    requires AboutToSelect(w, id, r) && r.window == WindowStart(w.clock)
    ensures ChecksOneScope(limits, w, Race.Run(limits, w, OneScope(id)), id, r)
  {
    ThreeSteps(limits, w, OneScope(id)[0], OneScope(id)[1], OneScope(id)[2]);
    if Race.Target(r) in w.table {
      LockedAndFinished(limits, w, id, r);
    } else {
      SelectsNothing(limits, w, id, r);
      InsertedAndFinished(limits, w, Race.Next(limits, Race.Next(limits, w, Race.Select(id)), Race.Insert(id)), id, r);
    }
  }

  lemma OneStep(limits: Limits, w: Race.World, s: Race.Step, rest: seq<Race.Step>)
    ensures Race.Run(limits, w, [s] + rest) == Race.Run(limits, Race.Next(limits, w, s), rest)
  {
    assert ([s] + rest)[1..] == rest;
  }

  lemma ThreeSteps(limits: Limits, w: Race.World, a: Race.Step, b: Race.Step, c: Race.Step)
    ensures Race.Run(limits, w, [a, b, c]) == Race.Next(limits, Race.Next(limits, Race.Next(limits, w, a), b), c)
  {
    assert [a, b, c] == [a] + ([b] + ([c] + []));
    OneStep(limits, w, a, [b] + ([c] + []));
    OneStep(limits, Race.Next(limits, w, a), b, [c] + []);
    OneStep(limits, Race.Next(limits, Race.Next(limits, w, a), b), c, []);
  }

  /** Request `id` has arrived, and is about to check its IP. */
  ghost predicate HasArrived(w: Race.World, w1: Race.World, id: nat, q: Request) {
    && AboutToSelect(w1, id, Race.Req(q.ip, q.user, WindowStart(q.now), false, false, Race.Selecting, Race.Running))
    && w1.table == w.table && w1.clock == q.now
  }

  /** Both scopes of a request that has arrived. */
  lemma BothScopesInOneGo(limits: Limits, w: Race.World, w1: Race.World, id: nat, q: Request)
    requires HasArrived(w, w1, id, q)
    ensures
      var w' := Race.Run(limits, Race.Run(limits, w1, OneScope(id)), OneScope(id));
      var o := Enforce(Consume, limits, w.table, q);
      && w'.table == o.t && Quiet(w') && id in w'.reqs && w'.reqs[id].ending == EndingOf(o.decision)
  {
    var w2 := Race.Run(limits, w1, OneScope(id));
    ScopeInOneGo(limits, w1, id, w1.reqs[id]);
    if w2.reqs[id].phase == Race.Selecting {
      ScopeInOneGo(limits, w2, id, w2.reqs[id]);
    } else {
      NothingLeftToDo(limits, w2, id);
    }
  }

  /**
   * A request that nobody interferes with leaves the table and gets the answer that the two checks in one go leave and
   * give.
   */
  lemma UninterruptedIsInOneGo(limits: Limits, w: Race.World, id: nat, q: Request)
    requires Quiet(w) && id !in w.reqs && q.now >= w.clock
    ensures
      var steps := [Race.Arrive(id, q.ip, q.user, q.now)] + (OneScope(id) + OneScope(id));
      var w' := Race.Run(limits, w, steps);
      var o := Enforce(Consume, limits, w.table, q);
      && w'.table == o.t && Quiet(w') && id in w'.reqs && w'.reqs[id].ending == EndingOf(o.decision)
  {
    var arrive := Race.Arrive(id, q.ip, q.user, q.now);
    var w1 := Race.Next(limits, w, arrive);
    OneStep(limits, w, arrive, OneScope(id) + OneScope(id));
    RunOnward(limits, w1, OneScope(id), OneScope(id));
    BothScopesInOneGo(limits, w, w1, id, q);
  }

  // ---- Lost races ----

  /** Request `id` has found no row, and somebody else has committed one since. */
  ghost predicate HasLost(w: Race.World, id: nat, r: Race.Req) {
    && Quiet(w) && id in w.reqs && w.reqs[id] == r && r.phase == Race.NoRow && r.ending == Race.Running
    && Race.Target(r) in w.table
  }

  /** A first lost race is as good as none: the request starts its check over, with the row that is there now. */
  lemma LosingOnceStartsOver(limits: Limits, w: Race.World, id: nat, r: Race.Req)
    requires HasLost(w, id, r) && !r.retried && r.window == WindowStart(w.clock)
    ensures
      var again := r.(phase := Race.Selecting, retried := true);
      ChecksOneScope(limits, w, Race.Run(limits, w, [Race.Insert(id)] + OneScope(id)), id, again)
  {
    var again := r.(phase := Race.Selecting, retried := true);
    OneStep(limits, w, Race.Insert(id), OneScope(id));
    ScopeInOneGo(limits, Race.Next(limits, w, Race.Insert(id)), id, again);
  }

  /** A second one blocks it, in the scope it was checking, and changes no row. */
  lemma LosingTwiceFailsClosed(limits: Limits, w: Race.World, id: nat, r: Race.Req)
    requires HasLost(w, id, r) && r.retried
    ensures
      var w' := Race.Next(limits, w, Race.Insert(id));
      && w'.table == w.table && w'.admitted == w.admitted && id in w'.reqs && w'.reqs[id].phase == Race.Gone
      && w'.reqs[id].ending == if r.onUser then Race.UserBlocked else Race.IpBlocked
  {
  }

  /** The same of the loop: out of tries, the quota is reported used up until the end of the minute. */
  lemma OutOfTries(views: seq<View>, current: Table, k: Key, limit: nat, now: int)
    requires |views| == 2
    requires ThisMinute(k, now) !in views[0].atSelect && ThisMinute(k, now) in views[0].atFlush
    requires ThisMinute(k, now) !in views[1].atSelect && ThisMinute(k, now) in views[1].atFlush
    ensures Attempts(views, current, k, limit, now) ==
      (views[1].atFlush, Ok(Snapshot(0, ThisMinute(k, now).window + 60_000_000, true)))
  {
    WindowIsTheMinute(k, now);
    var rest := views[1..];
    assert rest[0] == views[1] && rest[1..] == [];
    assert Attempts(rest[1..], views[1].atFlush, k, limit, now)
      == (views[1].atFlush, Ok(Snapshot(0, ResetAt(now), true)));
    assert Attempts(rest, views[0].atFlush, k, limit, now) == Attempts(rest[1..], views[1].atFlush, k, limit, now);
  }

  lemma {:induction false} RunOnward(limits: Limits, w: Race.World, a: seq<Race.Step>, b: seq<Race.Step>)
    ensures Race.Run(limits, w, a + b) == Race.Run(limits, Race.Run(limits, w, a), b)
    decreases |a|
  {
    if a == [] {
      assert a + b == b;
    } else {
      assert (a + b)[1..] == a[1..] + b;
      RunOnward(limits, Race.Next(limits, w, a[0]), a[1..], b);
    }
  }

  lemma NothingLeftToDo(limits: Limits, w: Race.World, id: nat)
    requires id in w.reqs && w.reqs[id].phase == Race.Gone
    ensures Race.Run(limits, w, OneScope(id)) == w
  {
    ThreeSteps(limits, w, OneScope(id)[0], OneScope(id)[1], OneScope(id)[2]);
  }
}
