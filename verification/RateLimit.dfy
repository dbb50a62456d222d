/**
 * The fixed-window rate limiter, one request at a time: windows, pruning, the two-scope check, and what a sequence of
 * requests can spend. Times are microseconds.
 */
module RateLimit {
  import opened Common

  const SECOND: int := 1_000_000
  const WINDOW: int := 60_000_000
  const KEPT: int := 120_000_000

  datatype Key = IpKey(address: string) | UserKey(id: string)

  datatype Bucket = Bucket(key: Key, window: int)

  /** Request counts by bucket. */
  type Table = map<Bucket, nat>

  datatype Limits = Limits(ip: nat, user: nat) {
    function For(k: Key): nat { if k.IpKey? then ip else user }

    predicate Valid() { ip >= 1 && user >= 1 }
  }

  function WindowStart(now: int): int { now - now % WINDOW }

  function ResetAt(now: int): int { WindowStart(now) + WINDOW }

  /** Python's int() of a number of seconds: truncation toward zero. */
  function WholeSeconds(span: int): int { if span >= 0 then span / SECOND else -(-span / SECOND) }

  function RetryAfter(resetAt: int, now: int): int { Max(1, WholeSeconds(resetAt - now)) }

  /** A rejection asks for a wait of 1 to 60 seconds that falls short of the reset by less than a second. */
  lemma RetryAfterIsTight(now: int)
    ensures 1 <= RetryAfter(ResetAt(now), now) <= 60
    ensures ResetAt(now) - now - RetryAfter(ResetAt(now), now) * SECOND < SECOND
    ensures ResetAt(now) - now >= SECOND ==> RetryAfter(ResetAt(now), now) * SECOND <= ResetAt(now) - now
  {
    var left := ResetAt(now) - now;
    assert 0 < left <= WINDOW;
    assert left == left / SECOND * SECOND + left % SECOND;
  }

  // ---- One scope ----

  function Stale(t: Table, k: Key, before: int): set<Bucket> { set b | b in t && b.key == k && b.window < before }

  function Prune(t: Table, k: Key, before: int): Table { t - Stale(t, k, before) }

  datatype Snapshot = Snapshot(remaining: nat, resetAt: int, exceeded: bool)

  /** Look up this window's bucket, insert or increment it, prune. */
  function Consume(t: Table, k: Key, limit: nat, now: int): (Table, Snapshot) {
    var b := Bucket(k, WindowStart(now));
    if b !in t then (Prune(t[b := 1], k, b.window - KEPT), Snapshot(Max(0, limit - 1), ResetAt(now), false))
    else if t[b] >= limit then (t, Snapshot(0, ResetAt(now), true))
    else (Prune(t[b := t[b] + 1], k, b.window - KEPT), Snapshot(Max(0, limit - t[b] - 1), ResetAt(now), false))
  }

  /** The limiter that never deletes a bucket. */
  function ConsumeKeeping(t: Table, k: Key, limit: nat, now: int): (Table, Snapshot) {
    var b := Bucket(k, WindowStart(now));
    if b !in t then (t[b := 1], Snapshot(Max(0, limit - 1), ResetAt(now), false))
    else if t[b] >= limit then (t, Snapshot(0, ResetAt(now), true))
    else (t[b := t[b] + 1], Snapshot(Max(0, limit - t[b] - 1), ResetAt(now), false))
  }

  // ---- Requests ----

  datatype Request = Request(now: int, ip: string, user: Option<string>)

  datatype Decision = Passed | BlockedIp | BlockedUser

  /** One unit of quota spent. */
  datatype Admission = Admission(key: Key, at: int)

  datatype Reply = Reply(t: Table, decision: Decision, spent: seq<Admission>)

  type Consumer = (Table, Key, nat, int) -> (Table, Snapshot)

  function Enforce(consume: Consumer, limits: Limits, t: Table, q: Request): Reply {
    var (t1, ip) := consume(t, IpKey(q.ip), limits.ip, q.now);
    if ip.exceeded then Reply(t1, BlockedIp, [])
    else if q.user.None? || q.user.value == "" then Reply(t1, Passed, [Admission(IpKey(q.ip), q.now)])
    else
      var (t2, user) := consume(t1, UserKey(q.user.value), limits.user, q.now);
      if user.exceeded then Reply(t2, BlockedUser, [Admission(IpKey(q.ip), q.now)])
      else Reply(t2, Passed, [Admission(IpKey(q.ip), q.now), Admission(UserKey(q.user.value), q.now)])
  }

  datatype Trace = Trace(t: Table, decisions: seq<Decision>, spent: seq<Admission>)

  function Serve(consume: Consumer, limits: Limits, qs: seq<Request>): Trace {
    if qs == [] then Trace(map[], [], [])
    else
      var before := Serve(consume, limits, qs[..|qs| - 1]);
      var o := Enforce(consume, limits, before.t, qs[|qs| - 1]);
      Trace(o.t, before.decisions + [o.decision], before.spent + o.spent)
  }

  ghost predicate ClockNondecreasing(qs: seq<Request>) {
    forall i, j :: 0 <= i <= j < |qs| ==> qs[i].now <= qs[j].now
  }

  /** An IP-blocked request spends nothing; a user-blocked one spends one IP unit and no user quota. */
  lemma BlockedSpending(limits: Limits, t: Table, q: Request)
    ensures
      var o := Enforce(Consume, limits, t, q);
      && (o.decision == BlockedIp ==> o.t == t && o.spent == [])
      && (o.decision == BlockedUser ==>
            && o.spent == [Admission(IpKey(q.ip), q.now)]
            && var ipBucket := Bucket(IpKey(q.ip), WindowStart(q.now));
            && ipBucket in o.t && o.t[ipBucket] == (if ipBucket in t then t[ipBucket] else 0) + 1
            && forall b: Bucket :: b.key.UserKey? ==> (b in o.t <==> b in t) && (b in t ==> o.t[b] == t[b]))
  {
  }

  // ---- Pruning is unobservable ----

  /** The pruned table is the full one without some buckets that are more than two windows old at `clock`. */
  ghost predicate Agrees(pruned: Table, full: Table, clock: int) {
    && (forall b :: b in pruned ==> b in full && pruned[b] == full[b])
    && (forall b :: b in full && b.window >= WindowStart(clock) - KEPT ==> b in pruned)
  }

  lemma WindowMonotone(a: int, b: int)
    requires a <= b
    ensures WindowStart(a) <= WindowStart(b)
  {
    assert WindowStart(a) == a / WINDOW * WINDOW && WindowStart(b) == b / WINDOW * WINDOW;
  }

  lemma ConsumeRefines(p: Table, f: Table, clock: int, k: Key, limit: nat, now: int)
    requires Agrees(p, f, clock) && clock <= now
    ensures Agrees(Consume(p, k, limit, now).0, ConsumeKeeping(f, k, limit, now).0, now)
    ensures Consume(p, k, limit, now).1 == ConsumeKeeping(f, k, limit, now).1
  {
    WindowMonotone(clock, now);
  }

  lemma EnforceRefines(limits: Limits, p: Table, f: Table, clock: int, q: Request)
    requires Agrees(p, f, clock) && clock <= q.now
    ensures
      var a, b := Enforce(Consume, limits, p, q), Enforce(ConsumeKeeping, limits, f, q);
      a.decision == b.decision && a.spent == b.spent && Agrees(a.t, b.t, q.now)
  {
    ConsumeRefines(p, f, clock, IpKey(q.ip), limits.ip, q.now);
    if q.user.Some? {
      var p1, f1 := Consume(p, IpKey(q.ip), limits.ip, q.now).0, ConsumeKeeping(f, IpKey(q.ip), limits.ip, q.now).0;
      ConsumeRefines(p1, f1, q.now, UserKey(q.user.value), limits.user, q.now);
    }
  }

  /** Pruning is unobservable: request by request, the limiter decides as one that never forgets a bucket. */
  lemma {:induction false} PruningIsUnobservable(limits: Limits, qs: seq<Request>)
    requires ClockNondecreasing(qs)
    ensures
      var p, f := Serve(Consume, limits, qs), Serve(ConsumeKeeping, limits, qs);
      && p.decisions == f.decisions && p.spent == f.spent
      && (qs != [] ==> Agrees(p.t, f.t, qs[|qs| - 1].now))
  {
    if qs != [] {
      var init, q := qs[..|qs| - 1], qs[|qs| - 1];
      PruningIsUnobservable(limits, init);
      var clock := if init == [] then q.now else init[|init| - 1].now;
      EnforceRefines(limits, Serve(Consume, limits, init).t, Serve(ConsumeKeeping, limits, init).t, clock, q);
    }
  }

  // ---- At most three buckets per key ----

  function BucketsOf(t: Table, k: Key): set<Bucket> { set b | b in t && b.key == k }

  /** Buckets of one key are whole windows, none after the clock, none more than two windows apart. */
  ghost predicate Compact(t: Table, clock: int) {
    && (forall b :: b in t ==> b.window % WINDOW == 0 && b.window <= WindowStart(clock))
    && (forall b, c :: b in t && c in t && b.key == c.key ==> b.window - c.window <= KEPT)
  }

  lemma ConsumeKeepsCompact(t: Table, clock: int, k: Key, limit: nat, now: int)
    requires Compact(t, clock) && clock <= now
    ensures Compact(Consume(t, k, limit, now).0, now)
  {
    WindowMonotone(clock, now);
    assert WindowStart(now) == now / WINDOW * WINDOW;
    assert WindowStart(now) % WINDOW == 0;
  }

  lemma {:induction false} ServeKeepsCompact(limits: Limits, qs: seq<Request>)
    requires ClockNondecreasing(qs)
    ensures qs != [] ==> Compact(Serve(Consume, limits, qs).t, qs[|qs| - 1].now)
  {
    if qs != [] {
      var init, q := qs[..|qs| - 1], qs[|qs| - 1];
      ServeKeepsCompact(limits, init);
      var t := Serve(Consume, limits, init).t;
      var clock := if init == [] then q.now else init[|init| - 1].now;
      ConsumeKeepsCompact(t, clock, IpKey(q.ip), limits.ip, q.now);
      if q.user.Some? {
        ConsumeKeepsCompact(Consume(t, IpKey(q.ip), limits.ip, q.now).0, q.now, UserKey(q.user.value), limits.user,
            q.now);
      }
    }
  }

  lemma CompactMeansThree(t: Table, clock: int, k: Key)
    requires Compact(t, clock)
    ensures |BucketsOf(t, k)| <= 3
  {
    var bs := BucketsOf(t, k);
    if bs != {} {
      NewestExists(bs);
      var newest :| newest in bs && forall c :: c in bs ==> c.window <= newest.window;
      var w := newest.window;
      var three := {Bucket(k, w), Bucket(k, w - WINDOW), Bucket(k, w - 2 * WINDOW)};
      forall b | b in bs
        ensures b in three
      {
        WindowsApart(w, b.window);
      }
      SubsetSize(bs, three);
    }
  }

  /** A key never has more than three buckets. */
  lemma AtMostThreeBuckets(limits: Limits, qs: seq<Request>, k: Key)
    requires ClockNondecreasing(qs)
    ensures |BucketsOf(Serve(Consume, limits, qs).t, k)| <= 3
  {
    if qs != [] {
      ServeKeepsCompact(limits, qs);
      CompactMeansThree(Serve(Consume, limits, qs).t, qs[|qs| - 1].now, k);
    }
  }

  lemma WindowsApart(w: int, v: int)
    requires w % WINDOW == 0 && v % WINDOW == 0 && 0 <= w - v <= KEPT
    ensures v == w || v == w - WINDOW || v == w - 2 * WINDOW
  {
    assert w == w / WINDOW * WINDOW && v == v / WINDOW * WINDOW;
  }

  lemma {:induction false} NewestExists(bs: set<Bucket>)
    requires bs != {}
    ensures exists n :: n in bs && forall c :: c in bs ==> c.window <= n.window
    decreases |bs|
  {
    var b :| b in bs;
    var rest := bs - {b};
    if rest == {} {
      assert forall c :: c in bs ==> c == b || c in rest;
    } else {
      NewestExists(rest);
      var m :| m in rest && forall c :: c in rest ==> c.window <= m.window;
      var n := if m.window < b.window then b else m;
      assert forall c :: c in bs ==> c == b || c in rest;
      assert n in bs && forall c :: c in bs ==> c.window <= n.window;
    }
  }

  // ---- What a span of time can spend ----

  function Spent(log: seq<Admission>, k: Key, from: int, to: int): nat {
    if log == [] then 0
    else
      var a := log[|log| - 1];
      Spent(log[..|log| - 1], k, from, to) + (if a.key == k && from <= a.at < to then 1 else 0)
  }

  lemma SpentAppend(log: seq<Admission>, a: Admission, k: Key, from: int, to: int)
    ensures Spent(log + [a], k, from, to) ==
      Spent(log, k, from, to) + (if a.key == k && from <= a.at < to then 1 else 0)
  {
    assert (log + [a])[..|log|] == log;
  }

  lemma {:induction false} SpentSplits(log: seq<Admission>, k: Key, from: int, mid: int, to: int, f: int, t: int)
    requires f <= from <= to <= t && f <= mid <= t
    ensures Spent(log, k, from, to) <= Spent(log, k, f, mid) + Spent(log, k, mid, t)
  {
    if log != [] { SpentSplits(log[..|log| - 1], k, from, mid, to, f, t); }
  }

  /** Each bucket of the full table counts exactly what was spent in its window, within the limit. */
  ghost predicate Accounts(limits: Limits, t: Table, log: seq<Admission>) {
    forall b: Bucket :: b.window % WINDOW == 0 ==>
      && Spent(log, b.key, b.window, b.window + WINDOW) == (if b in t then t[b] else 0)
      && (if b in t then t[b] else 0) <= limits.For(b.key)
  }

  lemma ConsumeAccounts(limits: Limits, t: Table, log: seq<Admission>, k: Key, now: int)
    requires Accounts(limits, t, log) && limits.Valid()
    ensures
      var (t', s) := ConsumeKeeping(t, k, limits.For(k), now);
      Accounts(limits, t', if s.exceeded then log else log + [Admission(k, now)])
  {
    var (t', s) := ConsumeKeeping(t, k, limits.For(k), now);
    var a := Admission(k, now);
    assert WindowStart(now) == now / WINDOW * WINDOW;
    if !s.exceeded {
      forall b: Bucket | b.window % WINDOW == 0
        ensures Spent(log + [a], b.key, b.window, b.window + WINDOW) == (if b in t' then t'[b] else 0)
        ensures (if b in t' then t'[b] else 0) <= limits.For(b.key)
      {
        SpentAppend(log, a, b.key, b.window, b.window + WINDOW);
        InWindow(b.window, now);
        assert Spent(log, b.key, b.window, b.window + WINDOW) == (if b in t then t[b] else 0);
      }
    }
  }

  lemma InWindow(w: int, now: int)
    requires w % WINDOW == 0
    ensures w <= now < w + WINDOW <==> w == WindowStart(now)
  {
    assert w == w / WINDOW * WINDOW;
    assert now == now / WINDOW * WINDOW + now % WINDOW;
  }

  lemma {:induction false} ServeAccounts(limits: Limits, qs: seq<Request>)
    requires limits.Valid()
    ensures var s := Serve(ConsumeKeeping, limits, qs); Accounts(limits, s.t, s.spent)
  {
    if qs != [] {
      var init, q := qs[..|qs| - 1], qs[|qs| - 1];
      ServeAccounts(limits, init);
      var s := Serve(ConsumeKeeping, limits, init);
      ConsumeAccounts(limits, s.t, s.spent, IpKey(q.ip), q.now);
      var (t1, ip) := ConsumeKeeping(s.t, IpKey(q.ip), limits.ip, q.now);
      if !ip.exceeded && q.user.Some? && q.user.value != "" {
        var log := s.spent + [Admission(IpKey(q.ip), q.now)];
        ConsumeAccounts(limits, t1, log, UserKey(q.user.value), q.now);
        assert log + [Admission(UserKey(q.user.value), q.now)]
            == s.spent + [Admission(IpKey(q.ip), q.now), Admission(UserKey(q.user.value), q.now)];
      }
      assert s.spent + [] == s.spent;
    }
  }

  lemma AgreeingAccounts(limits: Limits, p: Table, f: Table, clock: int, log: seq<Admission>, b: Bucket)
    requires Agrees(p, f, clock) && Compact(p, clock) && Accounts(limits, f, log) && b in p
    ensures p[b] == Spent(log, b.key, b.window, b.window + WINDOW) <= limits.For(b.key)
  {
    assert b.window % WINDOW == 0;
  }

  /** Every bucket the pruned table still has counts exactly what was spent in its window, within the limit. */
  lemma RemainingBucketsAccount(limits: Limits, qs: seq<Request>, b: Bucket)
    requires limits.Valid() && ClockNondecreasing(qs) && b in Serve(Consume, limits, qs).t
    ensures
      var s := Serve(Consume, limits, qs);
      s.t[b] == Spent(s.spent, b.key, b.window, b.window + WINDOW) <= limits.For(b.key)
  {
    if qs != [] {
      PruningIsUnobservable(limits, qs);
      ServeAccounts(limits, qs);
      ServeKeepsCompact(limits, qs);
      var p, f := Serve(Consume, limits, qs), Serve(ConsumeKeeping, limits, qs);
      AgreeingAccounts(limits, p.t, f.t, qs[|qs| - 1].now, f.spent, b);
    }
  }

  lemma LogBound(limits: Limits, t: Table, log: seq<Admission>, k: Key, from: int)
    requires Accounts(limits, t, log)
    ensures Spent(log, k, WindowStart(from), WindowStart(from) + WINDOW) <= limits.For(k)
    ensures Spent(log, k, from, from + WINDOW) <= 2 * limits.For(k)
  {
    var w := WindowStart(from);
    assert w == from / WINDOW * WINDOW;
    WindowHolds(limits, t, log, k, w);
    WindowHolds(limits, t, log, k, w + WINDOW);
    SpentSplits(log, k, from, w + WINDOW, from + WINDOW, w, w + 2 * WINDOW);
  }

  /**
   * The pruned limiter admits at most `limit` requests of a key in a window, and at most twice that in any 60
   * seconds.
   */
  lemma AnySixtySecondsAdmitAtMostTwice(limits: Limits, qs: seq<Request>, k: Key, from: int)
    requires limits.Valid() && ClockNondecreasing(qs)
    ensures Spent(Serve(Consume, limits, qs).spent, k, WindowStart(from), WindowStart(from) + WINDOW) <= limits.For(k)
    ensures Spent(Serve(Consume, limits, qs).spent, k, from, from + WINDOW) <= 2 * limits.For(k)
  {
    PruningIsUnobservable(limits, qs);
    ServeAccounts(limits, qs);
    LogBound(limits, Serve(ConsumeKeeping, limits, qs).t, Serve(ConsumeKeeping, limits, qs).spent, k, from);
  }

  // ---- Twice the limit does happen ----

  function Repeat(q: Request, n: nat): seq<Request> { if n == 0 then [] else Repeat(q, n - 1) + [q] }

  lemma ServeAppend(consume: Consumer, limits: Limits, qs: seq<Request>, q: Request)
    ensures
      var before := Serve(consume, limits, qs);
      var o := Enforce(consume, limits, before.t, q);
      Serve(consume, limits, qs + [q]) == Trace(o.t, before.decisions + [o.decision], before.spent + o.spent)
  {
    assert (qs + [q])[..|qs|] == qs;
  }

  lemma AnonymousAdmitted(limits: Limits, t: Table, q: Request)
    requires q.user.None?
    requires var b := Bucket(IpKey(q.ip), WindowStart(q.now)); b in t ==> t[b] < limits.ip
    ensures
      var o := Enforce(Consume, limits, t, q);
      var b := Bucket(IpKey(q.ip), WindowStart(q.now));
      && o.spent == [Admission(IpKey(q.ip), q.now)]
      && b in o.t && o.t[b] == (if b in t then t[b] else 0) + 1
      && forall c :: c in o.t ==> c == b || c in t
  {
  }

  /** Trace `s` is `base` followed by `n` admitted copies of `q`. */
  ghost predicate Burst(base: Trace, s: Trace, q: Request, n: nat, from: int, to: int) {
    var b := Bucket(IpKey(q.ip), WindowStart(q.now));
    && (n > 0 ==> b in s.t && s.t[b] == n) && (n == 0 ==> s.t == base.t)
    && (forall c :: c in s.t ==> c == b || c in base.t)
    && Spent(s.spent, IpKey(q.ip), from, to) == Spent(base.spent, IpKey(q.ip), from, to) + n
  }

  lemma BurstGrows(limits: Limits, base: Trace, s: Trace, s': Trace, q: Request, n: nat, from: int, to: int)
    requires Burst(base, s, q, n, from, to) && n < limits.ip && q.user.None? && from <= q.now < to
    requires Bucket(IpKey(q.ip), WindowStart(q.now)) !in base.t
    requires s'.t == Enforce(Consume, limits, s.t, q).t && s'.spent == s.spent + Enforce(Consume, limits, s.t, q).spent
    ensures Burst(base, s', q, n + 1, from, to)
  {
    AnonymousAdmitted(limits, s.t, q);
    SpentAppend(s.spent, Admission(IpKey(q.ip), q.now), IpKey(q.ip), from, to);
  }

  /** One more request on top of a trace. */
  function Extend(limits: Limits, s: Trace, q: Request): Trace {
    var o := Enforce(Consume, limits, s.t, q);
    Trace(o.t, s.decisions + [o.decision], s.spent + o.spent)
  }

  function Storm(limits: Limits, base: Trace, q: Request, n: nat): Trace {
    if n == 0 then base else Extend(limits, Storm(limits, base, q, n - 1), q)
  }

  lemma RepeatOnceMore(qs: seq<Request>, q: Request, n: nat)
    ensures qs + Repeat(q, n + 1) == (qs + Repeat(q, n)) + [q]
  {
  }

  lemma {:induction false} StormServed(limits: Limits, qs: seq<Request>, q: Request, n: nat)
    ensures Serve(Consume, limits, qs + Repeat(q, n)) == Storm(limits, Serve(Consume, limits, qs), q, n)
  {
    if n == 0 {
      assert qs + Repeat(q, n) == qs;
    } else {
      StormServed(limits, qs, q, n - 1);
      RepeatOnceMore(qs, q, n - 1);
      ServedOnceMore(limits, qs + Repeat(q, n - 1), q);
    }
  }

  lemma ServedOnceMore(limits: Limits, qs: seq<Request>, q: Request)
    ensures Serve(Consume, limits, qs + [q]) == Extend(limits, Serve(Consume, limits, qs), q)
  {
    ServeAppend(Consume, limits, qs, q);
  }

  /** A burst that fits the limit, into a window not used before, is admitted whole. */
  lemma {:induction false} BurstIsAdmitted(limits: Limits, base: Trace, q: Request, n: nat, from: int, to: int)
    requires n <= limits.ip && q.user.None? && from <= q.now < to
    requires Bucket(IpKey(q.ip), WindowStart(q.now)) !in base.t
    ensures Burst(base, Storm(limits, base, q, n), q, n, from, to)
  {
    if n > 0 {
      BurstIsAdmitted(limits, base, q, n - 1, from, to);
      var s := Storm(limits, base, q, n - 1);
      BurstGrows(limits, base, s, Extend(limits, s, q), q, n - 1, from, to);
    }
  }

  lemma TwoBursts(limits: Limits, q1: Request, q2: Request, from: int, to: int)
    requires q1.user.None? && q2.user.None? && q1.ip == q2.ip && from <= q1.now < to && from <= q2.now < to
    requires WindowStart(q1.now) != WindowStart(q2.now)
    ensures
      var empty := Trace(map[], [], []);
      Spent(Storm(limits, Storm(limits, empty, q1, limits.ip), q2, limits.ip).spent, IpKey(q1.ip), from, to) ==
        2 * limits.ip
  {
    var empty := Trace(map[], [], []);
    BurstIsAdmitted(limits, empty, q1, limits.ip, from, to);
    BurstIsAdmitted(limits, Storm(limits, empty, q1, limits.ip), q2, limits.ip, from, to);
  }

  lemma TwoStormsServed(limits: Limits, q1: Request, q2: Request, m: nat, n: nat)
    ensures
      var empty := Trace(map[], [], []);
      Serve(Consume, limits, Repeat(q1, m) + Repeat(q2, n)) == Storm(limits, Storm(limits, empty, q1, m), q2, n)
  {
    StormServed(limits, [], q1, m);
    assert [] + Repeat(q1, m) == Repeat(q1, m);
    StormServed(limits, Repeat(q1, m), q2, n);
  }

  /**
   * The bound is sharp: a burst in the last microsecond of a window and one in the first of the next spend twice
   * the limit.
   */
  lemma TwiceTheLimitHappens(limits: Limits, ip: string)
    ensures
      var qs := Repeat(Request(WINDOW - 1, ip, None), limits.ip) + Repeat(Request(WINDOW, ip, None), limits.ip);
      Spent(Serve(Consume, limits, qs).spent, IpKey(ip), WINDOW - 1, 2 * WINDOW - 1) == 2 * limits.ip
  {
    var q1, q2 := Request(WINDOW - 1, ip, None), Request(WINDOW, ip, None);
    TwoStormsServed(limits, q1, q2, limits.ip, limits.ip);
    TwoBursts(limits, q1, q2, WINDOW - 1, 2 * WINDOW - 1);
  }

  lemma WindowHolds(limits: Limits, t: Table, log: seq<Admission>, k: Key, w: int)
    requires Accounts(limits, t, log) && w % WINDOW == 0
    ensures Spent(log, k, w, w + WINDOW) <= limits.For(k)
  {
    assert Bucket(k, w).window == w;
  }

  // ---- In the limiter's own form ----

  /**
   * What one attempt finds committed: when it selects; if it found no row, when its insert is flushed; and if it found
   * one, when the row is read again after the increment has been committed, to report what is left.
   */
  datatype View = View(atSelect: Table, atFlush: Table, atReload: Table)

  datatype ReloadError = RowGone

  /** What is left according to the row as it is read again; a row pruned in the meantime is an error. */
  function Reloaded(t: Table, k: Key, limit: nat, now: int): Outcome<Snapshot, ReloadError> {
    var b := Bucket(k, WindowStart(now));
    if b in t then Ok(Snapshot(Max(0, limit - t[b]), ResetAt(now), false)) else Rejected(RowGone)
  }

  /**
   * An attempt that selects no row but meets one at the flush has lost the insert race and tries again; out of
   * tries, it fails closed.
   */
  function Attempts(views: seq<View>, current: Table, k: Key, limit: nat, now: int)
    : (Table, Outcome<Snapshot, ReloadError>)
    decreases |views|
  {
    if views == [] then (current, Ok(Snapshot(0, ResetAt(now), true)))
    else
      var v := views[0];
      var b := Bucket(k, WindowStart(now));
      if b in v.atSelect then
        var (t, s) := Consume(v.atSelect, k, limit, now);
        (t, if s.exceeded then Ok(s) else Reloaded(v.atReload, k, limit, now))
      else if b !in v.atFlush then
        var (t, s) := Consume(v.atFlush, k, limit, now);
        (t, Ok(s))
      else Attempts(views[1..], v.atFlush, k, limit, now)
  }

  class Limiter {
    var table: Table

    constructor ()
      ensures table == map[]
    {
      table := map[];
    }

    method PruneOldWindows(k: Key, before: int)
      modifies this
      ensures forall b :: b in table <==> b in old(table) && !(b.key == k && b.window < before)
      ensures forall b :: b in table ==> table[b] == old(table)[b]
    {
      table := table - Stale(table, k, before);
    }

    /** One scope, with what other transactions committed in the meantime given by `views`. */
    method ConsumeScope(k: Key, limit: nat, now: int, views: seq<View>) returns (s: Outcome<Snapshot, ReloadError>)
      requires |views| == 2
      modifies this
      ensures (table, s) == Attempts(views, old(table), k, limit, now)
    {
      var windowStart, resetAt := WindowStart(now), ResetAt(now);
      var b := Bucket(k, windowStart);
      for attempt := 0 to 2
        invariant Attempts(views, old(table), k, limit, now) == Attempts(views[attempt..], table, k, limit, now)
      {
        assert views[attempt..][1..] == views[attempt + 1..];
        table := views[attempt].atSelect;
        if b !in table {
          table := views[attempt].atFlush;
          if b in table { continue; }
          ghost var inserted := table[b := 1];
          table := table[b := 1];
          PruneOldWindows(k, windowStart - KEPT);
          assert table == Prune(inserted, k, windowStart - KEPT);
          return Ok(Snapshot(Max(0, limit - 1), resetAt, false));
        }
        if table[b] >= limit { return Ok(Snapshot(0, resetAt, true)); }
        ghost var incremented := table[b := table[b] + 1];
        table := table[b := table[b] + 1];
        PruneOldWindows(k, windowStart - KEPT);
        assert table == Prune(incremented, k, windowStart - KEPT);
        if b !in views[attempt].atReload { return Rejected(RowGone); }
        return Ok(Snapshot(Max(0, limit - views[attempt].atReload[b]), resetAt, false));
      }
      s := Ok(Snapshot(0, resetAt, true));
    }

    /** With nobody else at work, both scopes in turn. */
    method EnforceRateLimits(limits: Limits, q: Request) returns (d: Decision)
      modifies this
      ensures table == Enforce(Consume, limits, old(table), q).t
        && d == Enforce(Consume, limits, old(table), q).decision
    {
      var alone := View(table, table, Consume(table, IpKey(q.ip), limits.ip, q.now).0);
      var ip := ConsumeScope(IpKey(q.ip), limits.ip, q.now, [alone, alone]);
      if ip.value.exceeded { return BlockedIp; }
      if q.user.Some? && q.user.value != "" {
        alone := View(table, table, Consume(table, UserKey(q.user.value), limits.user, q.now).0);
        var user := ConsumeScope(UserKey(q.user.value), limits.user, q.now, [alone, alone]);
        if user.value.exceeded { return BlockedUser; }
      }
      d := Passed;
    }
  }

  /**
   * However the races go, an admission adds exactly one to what was committed for the bucket and stays within a limit
   * of at least one. What it reports as left is right for the row it inserted, or for the row as it was read again.
   */
  lemma {:induction false} RacedAdmission(views: seq<View>, current: Table, k: Key, limit: nat, now: int)
    requires limit >= 1
    ensures
      var (t, s) := Attempts(views, current, k, limit, now);
      var b := Bucket(k, WindowStart(now));
      if s.Ok? && s.value.exceeded then t == current || exists i ::
          0 <= i < |views| && (t == views[i].atSelect || t == views[i].atFlush)
      else exists i :: 0 <= i < |views| && b in t && 1 <= t[b] <= limit && AdmittedAs(views[i], t[b], b, limit, s)
    decreases |views|
  {
    if views != [] {
      var v := views[0];
      var b := Bucket(k, WindowStart(now));
      if b !in v.atSelect && b in v.atFlush {
        RacedAdmission(views[1..], v.atFlush, k, limit, now);
        assert forall i :: 0 <= i < |views[1..]| ==> views[1..][i] == views[i + 1];
      } else {
        var (t, s) := Attempts(views, current, k, limit, now);
        assert s.Rejected? || !s.value.exceeded ==> AdmittedAs(views[0], t[b], b, limit, s);
      }
    }
  }

  /** An increment of the row found at the selection, or a row of one where there was none even at the flush. */
  ghost predicate AdmittedAs(v: View, count: nat, b: Bucket, limit: nat, s: Outcome<Snapshot, ReloadError>) {
    if b in v.atSelect then
      && count == v.atSelect[b] + 1
      && (s.Ok? <==> b in v.atReload)
      && (s.Ok? ==> s.value.remaining == Max(0, limit - v.atReload[b]))
    else
      b !in v.atFlush && count == 1 && s.Ok? && s.value.remaining == limit - 1
  }
}
