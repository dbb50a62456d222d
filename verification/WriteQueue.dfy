/**
 * The persistent offline write queue. Storage is a list of mutations; every operation reads it, changes it and writes
 * it back in order of creation. Processing a scope awaits the server once per mutation, and anything may be queued,
 * discarded or requeued meanwhile; the process may also stop for good at any point.
 */
module WriteQueue {
  import opened Common
  import Sorting

  datatype Status = LocalQueued | Syncing | Conflicted | FailedRetrying

  datatype Conflict = Conflict(code: string, message: string, details: string)

  /** `createdAt` stands for the fixed-width UTC text the original compares. */
  datatype Mutation = Mutation(
    id: nat, scope: string, user: string, createdAt: int, payload: string,
    status: Status, attempts: nat, conflict: Option<Conflict>, lastError: Option<string>)

  /** How one call of the processor ends: it answers, or it throws. */
  datatype Reply =
    | Committed
    | Rejected(conflict: Conflict)
    | Retry(message: string)
    | Thrown(code: Option<string>, status: Option<int>, text: Option<string>, details: Option<string>)

  datatype Step =
    | Enqueue(item: Mutation)
    | Remove(doomed: Mutation -> bool)
    | Requeue(id: nat)
    | Begin(id: nat)
    | Settle(id: nat, reply: Reply)

  /** What other code may do to the queue while the processor is awaited. */
  type Op = s: Step | !s.Begin? && !s.Settle? witness Requeue(0)

  datatype Turn = Turn(ops: seq<Op>, reply: Reply)

  predicate Eligible(s: Status) { s == LocalQueued || s == FailedRetrying || s == Syncing }

  predicate InScope(m: Mutation, scope: string, user: string) { m.scope == scope && m.user == user }

  function OrElse(text: Option<string>, default: string): string { if text.Some? then text.value else default }

  predicate Retryable(status: Option<int>) { status.None? || status.value >= 500 || status.value == 429 }

  function ParseConflict(r: Reply): Conflict
    requires r.Thrown?
  {
    Conflict(OrElse(r.code, "SYNC_CONFLICT"), OrElse(r.text, "Server rejected queued mutation"),
        OrElse(r.details, "{}"))
  }

  /** The mutation is rejected for good, until someone requeues it. */
  predicate Refuses(r: Reply) { r.Rejected? || (r.Thrown? && !Retryable(r.status)) }

  // ---- What happens to one mutation ----

  function Begun(m: Mutation): Mutation { m.(status := Syncing, lastError := None) }

  function Requeued(m: Mutation): Mutation { m.(status := LocalQueued, conflict := None, lastError := None) }

  function Settled(m: Mutation, r: Reply): Mutation
    requires !r.Committed?
  {
    match r
    case Rejected(c) => m.(status := Conflicted, conflict := Some(c), lastError := Some(c.message),
        attempts := m.attempts + 1)
    case Retry(message) => m.(status := FailedRetrying, lastError := Some(message), attempts := m.attempts + 1)
    case Thrown(_, status, message, _) =>
      if Retryable(status) then m.(status := FailedRetrying,
          lastError := Some(OrElse(message, "Sync retry scheduled")), attempts := m.attempts + 1)
      else m.(status := Conflicted, conflict := Some(ParseConflict(r)),
          lastError := Some(OrElse(message, "Server rejected queued mutation")), attempts := m.attempts + 1)
  }

  // ---- Storage ----

  function OlderFirst(): (Mutation, Mutation) -> bool { (a: Mutation, b: Mutation) => a.createdAt <= b.createdAt }

  /** The stable sort by creation time. */
  function Sort(q: seq<Mutation>): seq<Mutation> { Sorting.Sort(OlderFirst(), q) }

  /** The position of the first mutation with that id, or the length. */
  function Find(q: seq<Mutation>, id: nat): (k: nat)
    ensures k <= |q|
    ensures forall i :: 0 <= i < k ==> q[i].id != id
    ensures k < |q| ==> q[k].id == id
  {
    if q == [] || q[0].id == id then 0 else 1 + Find(q[1..], id)
  }

  function Removing(q: seq<Mutation>, doomed: Mutation -> bool): seq<Mutation> { Sort(Without(Sort(q), doomed)) }

  /** Nothing is written when there is no such mutation. */
  function Updating(q: seq<Mutation>, id: nat, change: Mutation -> Mutation): seq<Mutation> {
    var all := Sort(q);
    var k := Find(all, id);
    if k == |all| then q else Sort(all[k := change(all[k])])
  }

  function HasId(id: nat): Mutation -> bool { (m: Mutation) => m.id == id }

  function Settling(r: Reply): Mutation -> Mutation
    requires !r.Committed?
  {
    (m: Mutation) => Settled(m, r)
  }

  function Take(q: seq<Mutation>, s: Step): seq<Mutation> {
    match s
    case Enqueue(x) => Sort(Sort(q) + [x])
    case Remove(doomed) => Removing(q, doomed)
    case Requeue(id) => Updating(q, id, Requeued)
    case Begin(id) => Updating(q, id, Begun)
    case Settle(id, r) => if r.Committed? then Removing(q, HasId(id)) else Updating(q, id, Settling(r))
  }

  function Taking(): (seq<Mutation>, Step) -> seq<Mutation> { (q: seq<Mutation>, s: Step) => Take(q, s) }

  function Run(q: seq<Mutation>, steps: seq<Step>): seq<Mutation> { Fold(Taking(), q, steps) }

  // ---- Sorting ----

  ghost predicate Sorted(q: seq<Mutation>) { forall i, j :: 0 <= i < j < |q| ==> q[i].createdAt <= q[j].createdAt }

  ghost predicate DistinctIds(q: seq<Mutation>) { forall i, j :: 0 <= i < j < |q| ==> q[i].id != q[j].id }

  /** What storage looks like once it has been written: ordered, with distinct ids. */
  ghost predicate Stored(q: seq<Mutation>) { Sorted(q) && DistinctIds(q) }

  lemma OlderFirstIsAnOrder()
    ensures Sorting.TotalPreorder(OlderFirst())
  {
  }

  /**
   * The list read back has the stored mutations in order of creation; those created at the same time keep their
   * order.
   */
  lemma SortSorts(q: seq<Mutation>)
    ensures Sorted(Sort(q)) && |Sort(q)| == |q|
    ensures forall m :: m in Sort(q) <==> m in q
    ensures forall m :: Sorting.Ties(OlderFirst(), Sort(q), m) == Sorting.Ties(OlderFirst(), q, m)
  {
    OlderFirstIsAnOrder();
    Sorting.SortOrders(OlderFirst(), q);
    Sorting.SortPermutes(OlderFirst(), q);
    Sorting.SameMembers(Sort(q), q);
    forall m
      ensures Sorting.Ties(OlderFirst(), Sort(q), m) == Sorting.Ties(OlderFirst(), q, m)
    {
      Sorting.SortIsStable(OlderFirst(), q, m);
    }
  }

  lemma SortedStays(q: seq<Mutation>)
    requires Sorted(q)
    ensures Sort(q) == q
  {
    Sorting.OrderedStays(OlderFirst(), q);
  }

  lemma {:induction false} InsertDistinct(q: seq<Mutation>, x: Mutation)
    requires DistinctIds(q) && forall m :: m in q ==> m.id != x.id
    ensures DistinctIds(Sorting.Insert(OlderFirst(), q, x))
  {
    var n := |q| - 1;
    if q != [] && q[n].createdAt > x.createdAt {
      InsertDistinct(q[..n], x);
      Sorting.InsertMembers(OlderFirst(), q[..n], x);
      var shorter := Sorting.Insert(OlderFirst(), q[..n], x);
      Sorting.SameMembers(shorter, q[..n] + [x]);
      forall i | 0 <= i < |shorter| ensures shorter[i].id != q[n].id { assert shorter[i] in q[..n] + [x]; }
    }
  }

  lemma {:induction false} WithoutKeeps(q: seq<Mutation>, doomed: Mutation -> bool)
    requires Stored(q)
    ensures Stored(Without(q, doomed))
  {
    if q != [] {
      var rest := Without(q[1..], doomed);
      WithoutKeeps(q[1..], doomed);
      WithoutMembers(q[1..], doomed);
      assert q == [q[0]] + q[1..];
      Prepend(q[0], q[1..], rest);
    }
  }

  lemma Prepend(x: Mutation, q: seq<Mutation>, rest: seq<Mutation>)
    requires Stored([x] + q) && Stored(rest) && forall m :: m in rest ==> m in q
    ensures Stored([x] + rest)
  {
    forall i | 0 <= i < |rest|
      ensures x.createdAt <= rest[i].createdAt && x.id != rest[i].id
    {
      assert rest[i] in rest;
      var j :| 0 <= j < |q| && q[j] == rest[i];
      assert ([x] + q)[0] == x && ([x] + q)[j + 1] == rest[i];
    }
  }

  // ---- One mutation at a time ----

  function Get(q: seq<Mutation>, id: nat): Option<Mutation> {
    var k := Find(q, id);
    if k == |q| then None else Some(q[k])
  }

  lemma GetIsMembership(q: seq<Mutation>, id: nat)
    requires DistinctIds(q)
    ensures forall m :: Get(q, id) == Some(m) <==> m in q && m.id == id
  {
  }

  /** A step, seen from one mutation: whether it is there and what it says. */
  function TakeOne(m: Option<Mutation>, id: nat, s: Step): Option<Mutation> {
    match s
    case Enqueue(x) => if x.id == id then Some(x) else m
    case Remove(doomed) => if m.Some? && doomed(m.value) then None else m
    case Requeue(i) => if i == id && m.Some? then Some(Requeued(m.value)) else m
    case Begin(i) => if i == id && m.Some? then Some(Begun(m.value)) else m
    case Settle(i, r) => if i != id || m.None? then m else if r.Committed? then None else Some(Settled(m.value, r))
  }

  /** New mutations get ids not in use. */
  ghost predicate Fresh(q: seq<Mutation>, s: Step) { s.Enqueue? ==> Get(q, s.item.id) == None }

  lemma EnqueuedIsSorted(q: seq<Mutation>, x: Mutation)
    requires Sorted(q)
    ensures Sorted(Take(q, Enqueue(x))) && forall m :: m in Take(q, Enqueue(x)) <==> m in q || m == x
    ensures Take(q, Enqueue(x)) == Sorting.Insert(OlderFirst(), q, x)
  {
    SortedStays(q);
    SortSorts(q + [x]);
    assert (q + [x])[..|q|] == q;
  }

  lemma EnqueueOne(q: seq<Mutation>, x: Mutation, id: nat)
    requires Stored(q) && Fresh(q, Enqueue(x))
    ensures Stored(Take(q, Enqueue(x))) && Get(Take(q, Enqueue(x)), id) == TakeOne(Get(q, id), id, Enqueue(x))
  {
    SortedStays(q);
    assert (q + [x])[..|q|] == q;
    GetIsMembership(q, x.id);
    InsertDistinct(q, x);
    EnqueuedIsSorted(q, x);
    GetIsMembership(q, id);
    GetIsMembership(Take(q, Enqueue(x)), id);
  }

  lemma RemoveOne(q: seq<Mutation>, doomed: Mutation -> bool, id: nat)
    requires Stored(q)
    ensures Stored(Removing(q, doomed)) && Get(Removing(q, doomed), id) == TakeOne(Get(q, id), id, Remove(doomed))
  {
    SortedStays(q);
    WithoutKeeps(q, doomed);
    WithoutMembers(q, doomed);
    SortedStays(Without(q, doomed));
    GetIsMembership(q, id);
    GetIsMembership(Without(q, doomed), id);
  }

  lemma ChangeKeeps(q: seq<Mutation>, k: nat, m: Mutation)
    requires Stored(q) && k < |q| && m.id == q[k].id && m.createdAt == q[k].createdAt
    ensures Stored(q[k := m]) && Sort(q[k := m]) == q[k := m]
  {
    assert forall i :: 0 <= i < |q| ==> q[k := m][i].id == q[i].id && q[k := m][i].createdAt == q[i].createdAt;
    SortedStays(q[k := m]);
  }

  lemma UpdatesInPlace(q: seq<Mutation>, target: nat, change: Mutation -> Mutation)
    requires Stored(q)
    requires forall m :: change(m).id == m.id && change(m).createdAt == m.createdAt
    ensures Stored(Updating(q, target, change))
    ensures Updating(q, target, change) == var k := Find(q, target); if k == |q| then q else q[k := change(q[k])]
  {
    SortedStays(q);
    var k := Find(q, target);
    if k < |q| { ChangeKeeps(q, k, change(q[k])); }
  }

  lemma UpdateOne(q: seq<Mutation>, target: nat, change: Mutation -> Mutation, id: nat)
    requires Stored(q)
    requires forall m :: change(m).id == m.id && change(m).createdAt == m.createdAt
    ensures Stored(Updating(q, target, change))
    ensures Get(Updating(q, target, change), id) ==
      if id == target && Get(q, id).Some? then Some(change(Get(q, id).value)) else Get(q, id)
  {
    UpdatesInPlace(q, target, change);
    var k := Find(q, target);
    if k < |q| { SameIdsSamePlace(q, q[k := change(q[k])], id); }
  }

  lemma {:induction false} SameIdsSamePlace(q: seq<Mutation>, q': seq<Mutation>, id: nat)
    requires |q| == |q'| && forall i :: 0 <= i < |q| ==> q'[i].id == q[i].id
    ensures Find(q', id) == Find(q, id)
  {
    var k, k' := Find(q, id), Find(q', id);
    if k < |q| { assert q'[k].id == id; }
    if k' < |q| { assert q[k'].id == id; }
  }

  /** The whole list behaves as independent mutations: a step does to each exactly what it says of that one. */
  lemma StepIsPointwise(q: seq<Mutation>, s: Step, id: nat)
    requires Stored(q) && Fresh(q, s)
    ensures Stored(Take(q, s)) && Get(Take(q, s), id) == TakeOne(Get(q, id), id, s)
  {
    match s
    case Enqueue(x) => EnqueueOne(q, x, id);
    case Remove(doomed) => RemoveOne(q, doomed, id);
    case Requeue(i) => UpdateOne(q, i, Requeued, id);
    case Begin(i) => UpdateOne(q, i, Begun, id);
    case Settle(i, r) => if r.Committed? { RemoveOne(q, HasId(i), id); } else { UpdateOne(q, i, Settling(r), id); }
  }

  function TakingOne(id: nat): (Option<Mutation>, Step) -> Option<Mutation>
  {
    (m: Option<Mutation>, s: Step) => TakeOne(m, id, s)
  }

  function RunOne(m: Option<Mutation>, id: nat, steps: seq<Step>): Option<Mutation> { Fold(TakingOne(id), m, steps) }

  ghost predicate AlwaysFresh(q: seq<Mutation>, steps: seq<Step>) {
    steps != [] ==> AlwaysFresh(q, steps[..|steps| - 1]) && Fresh(Run(q, steps[..|steps| - 1]), steps[|steps| - 1])
  }

  lemma {:induction false} RunIsPointwise(q: seq<Mutation>, steps: seq<Step>, id: nat)
    requires Stored(q) && AlwaysFresh(q, steps)
    ensures Stored(Run(q, steps)) && Get(Run(q, steps), id) == RunOne(Get(q, id), id, steps)
  {
    if steps != [] {
      var n := |steps| - 1;
      RunIsPointwise(q, steps[..n], id);
      StepIsPointwise(Run(q, steps[..n]), steps[n], id);
    }
  }

  // ---- Anything that can happen ----

  ghost predicate TakesAway(q: seq<Mutation>, id: nat, s: Step) {
    || s == Settle(id, Committed)
    || (s.Remove? && Get(q, id).Some? && s.doomed(Get(q, id).value))
  }

  lemma LeavingStep(q: seq<Mutation>, id: nat, s: Step)
    requires Stored(q) && Fresh(q, s) && Get(q, id).Some? && Get(Take(q, s), id).None?
    ensures TakesAway(q, id, s)
  {
    StepIsPointwise(q, s, id);
  }

  lemma StoredThroughout(q: seq<Mutation>, steps: seq<Step>)
    requires Stored(q) && AlwaysFresh(q, steps)
    ensures Stored(Run(q, steps))
  {
    RunIsPointwise(q, steps, 0);
  }

  /**
   * A mutation leaves storage only when the server has committed it or someone removes it, whatever else happens
   * and wherever it stops.
   */
  lemma {:induction false} OnlyCommittedOrRemovedLeave(q: seq<Mutation>, steps: seq<Step>, id: nat)
    requires Stored(q) && AlwaysFresh(q, steps) && Get(q, id).Some? && Get(Run(q, steps), id).None?
    ensures exists k :: 0 <= k < |steps| && TakesAway(Run(q, steps[..k]), id, steps[k])
  {
    var n := |steps| - 1;
    if Get(Run(q, steps[..n]), id).Some? {
      StoredThroughout(q, steps[..n]);
      LeavingStep(Run(q, steps[..n]), id, steps[n]);
    } else {
      OnlyCommittedOrRemovedLeave(q, steps[..n], id);
      var k :| 0 <= k < n && TakesAway(Run(q, steps[..n][..k]), id, steps[..n][k]);
      assert steps[..n][..k] == steps[..k];
      assert TakesAway(Run(q, steps[..k]), id, steps[k]);
    }
  }

  /** The steps neither reuse the id nor bring a refusal of that mutation. */
  ghost predicate NeverRefused(steps: seq<Step>, id: nat) {
    && (forall k :: 0 <= k < |steps| && steps[k].Enqueue? ==> steps[k].item.id != id)
    && (forall k :: 0 <= k < |steps| && steps[k].Settle? && steps[k].id == id ==> !Refuses(steps[k].reply))
  }

  lemma {:induction false} EligibleOne(m: Option<Mutation>, id: nat, steps: seq<Step>)
    requires m.Some? && Eligible(m.value.status) && NeverRefused(steps, id)
    ensures RunOne(m, id, steps).Some? ==> Eligible(RunOne(m, id, steps).value.status)
  {
    if steps != [] { EligibleOne(m, id, steps[..|steps| - 1]); }
  }

  /**
   * Whatever has happened, and wherever it stopped, a mutation still in storage is due again unless the server
   * refused it.
   */
  lemma StaysEligible(q: seq<Mutation>, steps: seq<Step>, id: nat)
    requires Stored(q) && AlwaysFresh(q, steps) && NeverRefused(steps, id)
    requires Get(q, id).Some? && Eligible(Get(q, id).value.status)
    ensures Get(Run(q, steps), id).Some? ==> Eligible(Get(Run(q, steps), id).value.status)
  {
    RunIsPointwise(q, steps, id);
    EligibleOne(Get(q, id), id, steps);
  }

  /** The step does nothing to the mutation's state; it may still remove it. */
  predicate PassesBy(s: Step, id: nat) {
    match s
    case Enqueue(x) => x.id != id
    case Remove(_) => true
    case Requeue(i) => i != id
    case Begin(i) => i != id
    case Settle(i, _) => i != id
  }

  lemma {:induction false} PassedByUnchanged(m: Option<Mutation>, id: nat, steps: seq<Step>)
    requires forall k :: 0 <= k < |steps| ==> PassesBy(steps[k], id)
    ensures RunOne(m, id, steps) == m || RunOne(m, id, steps) == None
    ensures m.Some? && (forall k :: 0 <= k < |steps| && steps[k].Remove? ==> !steps[k].doomed(m.value)) ==>
      RunOne(m, id, steps) == m
  {
    if steps != [] { PassedByUnchanged(m, id, steps[..|steps| - 1]); }
  }

  // ---- Processing a scope ----

  function NotDue(scope: string, user: string): Mutation -> bool
  {
    (m: Mutation) => !(InScope(m, scope, user) && Eligible(m.status))
  }

  /** The snapshot a run works through. */
  function Candidates(q: seq<Mutation>, scope: string, user: string): seq<Mutation>
  {
    Without(Sort(q), NotDue(scope, user))
  }

  /** One turn: mark, await while others act, settle. */
  function TurnSteps(m: Mutation, t: Turn): seq<Step> { [Begin(m.id)] + t.ops + [Settle(m.id, t.reply)] }

  /** All steps of the first `n` turns. */
  function Steps(todo: seq<Mutation>, turns: nat -> Turn, n: nat): seq<Step>
    requires n <= |todo|
  {
    if n == 0 then [] else Steps(todo, turns, n - 1) + TurnSteps(todo[n - 1], turns(n - 1))
  }

  /** The snapshot is exactly what is due in the scope, in order of creation, each once. */
  lemma CandidatesAreDueInOrder(q: seq<Mutation>, scope: string, user: string)
    requires Stored(q)
    ensures var c := Candidates(q, scope, user);
      Sorted(c) && DistinctIds(c) && forall m :: m in c <==> m in q && InScope(m, scope, user) && Eligible(m.status)
  {
    SortedStays(q);
    WithoutKeeps(q, NotDue(scope, user));
    WithoutMembers(q, NotDue(scope, user));
  }

  /** The step neither commits, refuses nor removes the mutation, nor reuses its id. */
  ghost predicate Spares(s: Step, id: nat) {
    match s
    case Enqueue(x) => x.id != id
    case Remove(doomed) => forall m: Mutation :: m.id == id ==> !doomed(m)
    case Requeue(_) => true
    case Begin(_) => true
    case Settle(i, r) => i == id ==> !r.Committed? && !Refuses(r)
  }

  lemma {:induction false} SparedIsDue(m: Mutation, steps: seq<Step>)
    requires Eligible(m.status) && forall k :: 0 <= k < |steps| ==> Spares(steps[k], m.id)
    ensures
      var m' := RunOne(Some(m), m.id, steps);
      m'.Some? && m'.value.id == m.id && m'.value.scope == m.scope && m'.value.user == m.user
      && Eligible(m'.value.status)
  {
    if steps != [] { SparedIsDue(m, steps[..|steps| - 1]); }
  }

  /**
   * Wherever a run is cut short, a candidate not committed, refused or removed by then is a candidate of the next
   * run.
   */
  lemma CutShortIsRetried(q: seq<Mutation>, scope: string, user: string, turns: nat -> Turn, cut: nat, i: nat)
    requires Stored(q) && i < |Candidates(q, scope, user)|
    requires
      var todo := Candidates(q, scope, user);
      var steps := Steps(todo, turns, |todo|);
      cut <= |steps| && AlwaysFresh(q, steps[..cut]) && forall k :: 0 <= k < cut ==> Spares(steps[k], todo[i].id)
    ensures
      var todo := Candidates(q, scope, user);
      exists m :: m in Candidates(Run(q, Steps(todo, turns, |todo|)[..cut]), scope, user) && m.id == todo[i].id
  {
    var todo := Candidates(q, scope, user);
    var steps := Steps(todo, turns, |todo|)[..cut];
    var id := todo[i].id;
    CandidatesAreDueInOrder(q, scope, user);
    assert todo[i] in todo;
    GetIsMembership(q, id);
    RunIsPointwise(q, steps, id);
    SparedIsDue(todo[i], steps);
    GetIsMembership(Run(q, steps), id);
    CandidatesAreDueInOrder(Run(q, steps), scope, user);
    assert Get(Run(q, steps), id).value in Candidates(Run(q, steps), scope, user);
  }

  /** Only what the others did. */
  function OthersSteps(turns: nat -> Turn, n: nat): seq<Step>
  {
    if n == 0 then [] else OthersSteps(turns, n - 1) + turns(n - 1).ops
  }

  ghost predicate NotAmong(id: nat, todo: seq<Mutation>) { forall i :: 0 <= i < |todo| ==> todo[i].id != id }

  lemma TurnForOthers(m: Option<Mutation>, id: nat, item: Mutation, t: Turn)
    requires item.id != id
    ensures RunOne(m, id, TurnSteps(item, t)) == RunOne(m, id, t.ops)
  {
    var ops: seq<Step> := t.ops;
    FoldConcat(TakingOne(id), m, [Begin(item.id)] + ops, [Settle(item.id, t.reply)]);
    FoldConcat(TakingOne(id), m, [Begin(item.id)], ops);
    assert RunOne(m, id, [Begin(item.id)]) == m by { assert RunOne(m, id, []) == m; }
    OneStep(RunOne(m, id, ops), id, Settle(item.id, t.reply));
  }

  lemma OneStep(m: Option<Mutation>, id: nat, s: Step)
    ensures RunOne(m, id, [s]) == TakeOne(m, id, s)
  {
    assert [s][..0] == [] && RunOne(m, id, []) == m;
  }

  /**
   * A mutation outside the snapshot, of another scope or queued during the run, sees of the run only what others
   * do.
   */
  lemma {:induction false} OutsidersUntouched(m: Option<Mutation>, id: nat, todo: seq<Mutation>, turns: nat -> Turn,
      n: nat)
    requires n <= |todo| && NotAmong(id, todo)
    ensures RunOne(m, id, Steps(todo, turns, n)) == RunOne(m, id, OthersSteps(turns, n))
  {
    if n > 0 {
      OutsidersUntouched(m, id, todo, turns, n - 1);
      FoldConcat(TakingOne(id), m, Steps(todo, turns, n - 1), TurnSteps(todo[n - 1], turns(n - 1)));
      FoldConcat(TakingOne(id), m, OthersSteps(turns, n - 1), turns(n - 1).ops);
      TurnForOthers(RunOne(m, id, Steps(todo, turns, n - 1)), id, todo[n - 1], turns(n - 1));
    }
  }

  /** What others do leaves the number of attempts alone, as long as they do not reuse the id. */
  lemma {:induction false} OthersKeepAttempts(m: Option<Mutation>, id: nat, ops: seq<Op>)
    requires forall k :: 0 <= k < |ops| && ops[k].Enqueue? ==> ops[k].item.id != id
    ensures RunOne(m, id, ops).Some? ==> m.Some? && RunOne(m, id, ops).value.attempts == m.value.attempts
  {
    if ops != [] { OthersKeepAttempts(m, id, ops[..|ops| - 1]); }
  }

  /** During the run nobody queues a new mutation under an id of the snapshot. */
  ghost predicate NoReuse(todo: seq<Mutation>, turns: nat -> Turn) {
    forall i: nat, k: nat, j: nat ::
        i < |todo| && k < |turns(j).ops| && turns(j).ops[k].Enqueue? ==> turns(j).ops[k].item.id != todo[i].id
  }

  lemma OwnTurn(m: Option<Mutation>, item: Mutation, t: Turn)
    requires forall k :: 0 <= k < |t.ops| && t.ops[k].Enqueue? ==> t.ops[k].item.id != item.id
    ensures
      var m' := RunOne(m, item.id, TurnSteps(item, t));
      && (t.reply.Committed? ==> m' == None)
      && (m'.Some? ==> m.Some? && m'.value.attempts == m.value.attempts + 1)
      && (m'.Some? ==> m'.value.status == if Refuses(t.reply) then Conflicted else FailedRetrying)
  {
    var ops: seq<Step> := t.ops;
    FoldConcat(TakingOne(item.id), m, [Begin(item.id)] + ops, [Settle(item.id, t.reply)]);
    FoldConcat(TakingOne(item.id), m, [Begin(item.id)], ops);
    OneStep(m, item.id, Begin(item.id));
    OthersKeepAttempts(TakeOne(m, item.id, Begin(item.id)), item.id, t.ops);
    OneStep(RunOne(m, item.id, [Begin(item.id)] + ops), item.id, Settle(item.id, t.reply));
  }

  /**
   * Another mutation's turn leaves attempts alone, and the status too unless someone requeues the mutation
   * meanwhile.
   */
  lemma OthersTurn(m: Option<Mutation>, id: nat, item: Mutation, t: Turn)
    requires item.id != id && forall k :: 0 <= k < |t.ops| && t.ops[k].Enqueue? ==> t.ops[k].item.id != id
    ensures
      var m' := RunOne(m, id, TurnSteps(item, t));
      && (m'.Some? ==> m.Some? && m'.value.attempts == m.value.attempts)
      && (m'.Some? && (forall k :: 0 <= k < |t.ops| && t.ops[k].Requeue? ==> t.ops[k].id != id) ==>
          m'.value.status == m.value.status)
  {
    TurnForOthers(m, id, item, t);
    OthersKeepAttempts(m, id, t.ops);
    if forall k :: 0 <= k < |t.ops| && t.ops[k].Requeue? ==> t.ops[k].id != id { PassedByUnchanged(m, id, t.ops); }
  }

  /** Nobody requeues the mutation after its own turn, `i`. */
  ghost predicate NotRequeuedAfter(turns: nat -> Turn, i: nat, id: nat) {
    forall j: nat, k: nat :: j > i && k < |turns(j).ops| && turns(j).ops[k].Requeue? ==> turns(j).ops[k].id != id
  }

  /**
   * What a completed run leaves of candidate `i`: nothing once committed; otherwise, unless removed, exactly one more
   * attempt, and refused or waiting for a retry as the server answered, unless someone requeued it meanwhile.
   */
  lemma {:induction false} CandidateOutcome(m: Mutation, todo: seq<Mutation>, turns: nat -> Turn, n: nat, i: nat)
    requires i < n <= |todo| && DistinctIds(todo) && m == todo[i] && NoReuse(todo, turns)
    ensures
      var m' := RunOne(Some(m), m.id, Steps(todo, turns, n));
      && (turns(i).reply.Committed? ==> m' == None)
      && (m'.Some? ==> m'.value.attempts == m.attempts + 1)
      && (m'.Some? && NotRequeuedAfter(turns, i, m.id) ==>
          m'.value.status == (if Refuses(turns(i).reply) then Conflicted else FailedRetrying))
  {
    var before := RunOne(Some(m), m.id, Steps(todo, turns, n - 1));
    FoldConcat(TakingOne(m.id), Some(m), Steps(todo, turns, n - 1), TurnSteps(todo[n - 1], turns(n - 1)));
    if i == n - 1 {
      NotYetAt(m, todo, turns, i, i);
      OwnTurn(before, m, turns(i));
    } else {
      CandidateOutcome(m, todo, turns, n - 1, i);
      OthersTurn(before, m.id, todo[n - 1], turns(n - 1));
    }
  }

  /** Before its turn a candidate has had no attempt. */
  lemma {:induction false} NotYetAt(m: Mutation, todo: seq<Mutation>, turns: nat -> Turn, i: nat, n: nat)
    requires n <= i < |todo| && DistinctIds(todo) && m == todo[i] && NoReuse(todo, turns)
    ensures var before := RunOne(Some(m), m.id, Steps(todo, turns, n));
      before.Some? ==> before.value.attempts == m.attempts
  {
    if n > 0 {
      NotYetAt(m, todo, turns, i, n - 1);
      FoldConcat(TakingOne(m.id), Some(m), Steps(todo, turns, n - 1), TurnSteps(todo[n - 1], turns(n - 1)));
      OthersTurn(RunOne(Some(m), m.id, Steps(todo, turns, n - 1)), m.id, todo[n - 1], turns(n - 1));
    }
  }

  // ---- The class ----

  class Queue {
    var stored: seq<Mutation>

    constructor ()
      ensures stored == [] && Stored(stored)
    {
      stored := [];
    }

    /** Everything stored, in order of creation. */
    method ListAll() returns (all: seq<Mutation>)
      ensures all == Sort(stored)
      ensures Sorted(all) && |all| == |stored| && forall m :: m in all <==> m in stored
    {
      all := Sort(stored);
      SortSorts(stored);
    }

    method Persist(all: seq<Mutation>)
      modifies this
      ensures stored == Sort(all)
    {
      stored := Sort(all);
    }

    method Enqueue(item: Mutation)
      modifies this
      ensures stored == Take(old(stored), Step.Enqueue(item))
    {
      var all := ListAll();
      all := all + [item];
      Persist(all);
    }

    method RemoveWhere(doomed: Mutation -> bool)
      modifies this
      ensures stored == Take(old(stored), Remove(doomed))
    {
      var all := ListAll();
      Persist(Without(all, doomed));
    }

    method RemoveById(id: nat)
      modifies this
      ensures stored == Take(old(stored), Remove(HasId(id)))
    {
      RemoveWhere(HasId(id));
    }

    method RemoveForScope(scope: string, user: string)
      modifies this
      ensures stored == Take(old(stored), Remove((m: Mutation) => InScope(m, scope, user)))
    {
      RemoveWhere((m: Mutation) => InScope(m, scope, user));
    }

    method RemoveForUser(user: string)
      modifies this
      ensures stored == Take(old(stored), Remove((m: Mutation) => m.user == user))
    {
      RemoveWhere((m: Mutation) => m.user == user);
    }

    method Update(id: nat, change: Mutation -> Mutation) returns (updated: Option<Mutation>)
      modifies this
      ensures stored == Updating(old(stored), id, change)
      ensures updated == var m := Get(Sort(old(stored)), id); if m.None? then None else Some(change(m.value))
    {
      var all := ListAll();
      var index := Find(all, id);
      if index == |all| {
        return None;
      }
      all := all[index := change(all[index])];
      Persist(all);
      return Some(all[index]);
    }

    method MarkLocalQueued(id: nat)
      modifies this
      ensures stored == Take(old(stored), Requeue(id))
    {
      var _ := Update(id, (m: Mutation) => m.(status := LocalQueued, conflict := None, lastError := None));
    }

    /** While the processor is awaited. */
    method Await(ops: seq<Op>)
      modifies this
      ensures stored == Run(old(stored), ops)
    {
      for i := 0 to |ops|
        invariant stored == Run(old(stored), ops[..i])
      {
        match ops[i] {
          case Enqueue(item) => Enqueue(item);
          case Remove(doomed) => RemoveWhere(doomed);
          case Requeue(id) => MarkLocalQueued(id);
        }
        assert ops[..i + 1][..i] == ops[..i];
      }
      assert ops[..|ops|] == ops;
    }

    /** What the answer, or the thrown error, makes of the mutation. */
    method Settle(id: nat, reply: Reply)
      modifies this
      ensures stored == Take(old(stored), Step.Settle(id, reply))
    {
      match reply {
        case Committed =>
          RemoveById(id);
        case Rejected(c) =>
          var _ := Update(id, (m: Mutation) => m.(status := Conflicted, conflict := Some(c),
              lastError := Some(c.message), attempts := m.attempts + 1));
        case Retry(message) =>
          var _ := Update(id, (m: Mutation) => m.(status := FailedRetrying, lastError := Some(message),
              attempts := m.attempts + 1));
        case Thrown(code, status, text, details) =>
          if status.None? || status.value >= 500 || status.value == 429 {
            var error := if text.Some? then text.value else "Sync retry scheduled";
            var _ := Update(id, (m: Mutation) => m.(status := FailedRetrying, lastError := Some(error),
                attempts := m.attempts + 1));
          } else {
            var error := if text.Some? then text.value else "Server rejected queued mutation";
            var conflict := Conflict(if code.Some? then code.value else "SYNC_CONFLICT", error,
                if details.Some? then details.value else "{}");
            var _ := Update(id, (m: Mutation) => m.(status := Conflicted, conflict := Some(conflict),
                lastError := Some(error), attempts := m.attempts + 1));
          }
      }
    }

    method ListDue(scope: string, user: string) returns (due: seq<Mutation>)
      ensures due == Candidates(stored, scope, user)
    {
      var all := ListAll();
      due := Without(all, NotDue(scope, user));
    }

    method ProcessItem(item: Mutation, turn: Turn)
      modifies this
      ensures stored == RunTurn(Taking(), old(stored), item, turn)
    {
      var _ := Update(item.id, (m: Mutation) => m.(status := Syncing, lastError := None));
      Await(turn.ops);
      Settle(item.id, turn.reply);
      TurnRuns(old(stored), item, turn);
    }

    /** One item after the other; `submitted` is what the processor was called with. */
    method ProcessAll(todo: seq<Mutation>, turns: nat -> Turn) returns (submitted: seq<Mutation>)
      modifies this
      ensures submitted == todo
      ensures stored == RunTurns(Taking(), old(stored), todo, turns, |todo|)
    {
      submitted := [];
      for i := 0 to |todo|
        invariant submitted == todo[..i]
        invariant stored == RunTurns(Taking(), old(stored), todo, turns, i)
      {
        ProcessItem(todo[i], turns(i));
        submitted := submitted + [todo[i]];
        NextTurn(Taking(), old(stored), todo, turns, i);
      }
    }

    /** Submits the snapshot in order, whatever happens to the queue meanwhile. */
    method ProcessScope(scope: string, user: string, turns: nat -> Turn) returns (submitted: seq<Mutation>)
      modifies this
      ensures submitted == Candidates(old(stored), scope, user)
      ensures stored == RunTurns(Taking(), old(stored), submitted, turns, |submitted|)
    {
      var todo := ListDue(scope, user);
      submitted := ProcessAll(todo, turns);
    }
  }

  function RunTurn(take: (seq<Mutation>, Step) -> seq<Mutation>, q: seq<Mutation>, m: Mutation, t: Turn): seq<Mutation>
  {
    Fold(take, q, TurnSteps(m, t))
  }

  /** Turn after turn. */
  function RunTurns(take: (seq<Mutation>, Step) -> seq<Mutation>, q: seq<Mutation>, todo: seq<Mutation>,
      turns: nat -> Turn, n: nat): seq<Mutation>
    requires n <= |todo|
  {
    if n == 0 then q else RunTurn(take, RunTurns(take, q, todo, turns, n - 1), todo[n - 1], turns(n - 1))
  }

  lemma NextTurn(take: (seq<Mutation>, Step) -> seq<Mutation>, q: seq<Mutation>, todo: seq<Mutation>,
      turns: nat -> Turn, i: nat)
    requires i < |todo|
    ensures todo[..i + 1] == todo[..i] + [todo[i]]
    ensures RunTurns(take, q, todo, turns, i + 1) == RunTurn(take, RunTurns(take, q, todo, turns, i), todo[i], turns(i))
  {
  }

  lemma {:induction false} TurnsFold(take: (seq<Mutation>, Step) -> seq<Mutation>, q: seq<Mutation>,
      todo: seq<Mutation>, turns: nat -> Turn, n: nat)
    requires n <= |todo|
    ensures RunTurns(take, q, todo, turns, n) == Fold(take, q, Steps(todo, turns, n))
  {
    if n > 0 {
      TurnsFold(take, q, todo, turns, n - 1);
      FoldConcat(take, q, Steps(todo, turns, n - 1), TurnSteps(todo[n - 1], turns(n - 1)));
    }
  }

  /** A run is the sequence of all its steps, which is what may be cut short anywhere. */
  lemma TurnsAreSteps(q: seq<Mutation>, todo: seq<Mutation>, turns: nat -> Turn)
    ensures RunTurns(Taking(), q, todo, turns, |todo|) == Run(q, Steps(todo, turns, |todo|))
  {
    TurnsFold(Taking(), q, todo, turns, |todo|);
  }

  // ---- What a run leaves in storage ----

  /** The stored list after a completed run. */
  function Processed(q: seq<Mutation>, scope: string, user: string, turns: nat -> Turn): seq<Mutation> {
    RunTurns(Taking(), q, Candidates(q, scope, user), turns, |Candidates(q, scope, user)|)
  }

  /** All steps of a run. */
  function ScopeSteps(q: seq<Mutation>, scope: string, user: string, turns: nat -> Turn): seq<Step> {
    Steps(Candidates(q, scope, user), turns, |Candidates(q, scope, user)|)
  }

  lemma ProcessedPointwise(q: seq<Mutation>, scope: string, user: string, turns: nat -> Turn, id: nat)
    requires Stored(q) && AlwaysFresh(q, ScopeSteps(q, scope, user, turns))
    ensures Stored(Processed(q, scope, user, turns))
    ensures Get(Processed(q, scope, user, turns), id) == RunOne(Get(q, id), id, ScopeSteps(q, scope, user, turns))
  {
    TurnsAreSteps(q, Candidates(q, scope, user), turns);
    RunIsPointwise(q, ScopeSteps(q, scope, user, turns), id);
  }

  /**
   * What a completed run leaves in storage of candidate `i`: nothing once committed; otherwise, unless removed, the
   * mutation with exactly one more attempt, refused or waiting for a retry as the server answered, unless someone
   * requeued it afterwards.
   */
  lemma CandidateLeft(q: seq<Mutation>, scope: string, user: string, turns: nat -> Turn, i: nat)
    requires Stored(q) && AlwaysFresh(q, ScopeSteps(q, scope, user, turns))
    requires i < |Candidates(q, scope, user)| && NoReuse(Candidates(q, scope, user), turns)
    ensures
      var m := Candidates(q, scope, user)[i];
      var left := Get(Processed(q, scope, user, turns), m.id);
      && (turns(i).reply.Committed? ==> left == None)
      && (left.Some? ==> left.value.attempts == m.attempts + 1)
      && (left.Some? && NotRequeuedAfter(turns, i, m.id) ==>
            left.value.status == (if Refuses(turns(i).reply) then Conflicted else FailedRetrying))
  {
    var todo := Candidates(q, scope, user);
    CandidatesAreDueInOrder(q, scope, user);
    assert todo[i] in todo;
    GetIsMembership(q, todo[i].id);
    ProcessedPointwise(q, scope, user, turns, todo[i].id);
    CandidateOutcome(todo[i], todo, turns, |todo|, i);
  }

  /** Steps that neither address the mutation nor remove it leave it in storage exactly as it was. */
  lemma UnaddressedStays(q: seq<Mutation>, steps: seq<Step>, m: Mutation)
    requires Stored(q) && AlwaysFresh(q, steps) && m in q
    requires forall k :: 0 <= k < |steps| ==> PassesBy(steps[k], m.id) && (steps[k].Remove? ==> !steps[k].doomed(m))
    ensures m in Run(q, steps)
  {
    GetIsMembership(q, m.id);
    RunIsPointwise(q, steps, m.id);
    PassedByUnchanged(Some(m), m.id, steps);
    GetIsMembership(Run(q, steps), m.id);
  }

  /**
   * A mutation that is not a candidate, of another scope or not due, is in storage afterwards exactly as it was, unless
   * other code addressed or removed it while the processor was awaited.
   */
  lemma NonCandidatesUnchanged(q: seq<Mutation>, scope: string, user: string, turns: nat -> Turn, m: Mutation)
    requires Stored(q) && AlwaysFresh(q, ScopeSteps(q, scope, user, turns))
    requires m in q && !(InScope(m, scope, user) && Eligible(m.status))
    requires
      var others := OthersSteps(turns, |Candidates(q, scope, user)|);
      forall k :: 0 <= k < |others| ==> PassesBy(others[k], m.id) && (others[k].Remove? ==> !others[k].doomed(m))
    ensures m in Processed(q, scope, user, turns)
  {
    var todo := Candidates(q, scope, user);
    NonCandidateIds(q, scope, user, m);
    GetIsMembership(q, m.id);
    ProcessedPointwise(q, scope, user, turns, m.id);
    OutsidersUntouched(Some(m), m.id, todo, turns, |todo|);
    PassedByUnchanged(Some(m), m.id, OthersSteps(turns, |todo|));
    GetIsMembership(Processed(q, scope, user, turns), m.id);
  }

  lemma NonCandidateIds(q: seq<Mutation>, scope: string, user: string, m: Mutation)
    requires Stored(q) && m in q && !(InScope(m, scope, user) && Eligible(m.status))
    ensures NotAmong(m.id, Candidates(q, scope, user))
  {
    var todo := Candidates(q, scope, user);
    CandidatesAreDueInOrder(q, scope, user);
    GetIsMembership(q, m.id);
    forall i | 0 <= i < |todo| ensures todo[i].id != m.id { assert todo[i] in todo; }
  }

  /**
   * A mutation queued while the processor was awaited is in storage afterwards as far as other code leaves it
   * there.
   */
  lemma QueuedMeanwhile(q: seq<Mutation>, scope: string, user: string, turns: nat -> Turn, id: nat)
    requires Stored(q) && AlwaysFresh(q, ScopeSteps(q, scope, user, turns)) && Get(q, id).None?
    ensures Get(Processed(q, scope, user, turns), id) ==
      RunOne(None, id, OthersSteps(turns, |Candidates(q, scope, user)|))
  {
    var todo := Candidates(q, scope, user);
    CandidatesAreDueInOrder(q, scope, user);
    forall i | 0 <= i < |todo| ensures todo[i].id != id { assert todo[i] in todo; GetIsMembership(q, id); }
    ProcessedPointwise(q, scope, user, turns, id);
    OutsidersUntouched(None, id, todo, turns, |todo|);
  }

  /** In particular it is there exactly as queued if nothing after it addresses or removes it. */
  lemma QueuedStays(q: seq<Mutation>, scope: string, user: string, turns: nat -> Turn, x: Mutation, k: nat)
    requires Stored(q) && AlwaysFresh(q, ScopeSteps(q, scope, user, turns)) && Get(q, x.id).None?
    requires
      var others := OthersSteps(turns, |Candidates(q, scope, user)|);
      && k < |others| && others[k] == Enqueue(x)
      && forall j :: k < j < |others| ==> PassesBy(others[j], x.id) && (others[j].Remove? ==> !others[j].doomed(x))
    ensures x in Processed(q, scope, user, turns)
  {
    var others := OthersSteps(turns, |Candidates(q, scope, user)|);
    QueuedMeanwhile(q, scope, user, turns, x.id);
    assert others == others[..k + 1] + others[k + 1..];
    FoldConcat(TakingOne(x.id), None, others[..k + 1], others[k + 1..]);
    assert others[..k + 1][..k] == others[..k];
    assert RunOne(None, x.id, others[..k + 1]) == Some(x);
    PassedByUnchanged(Some(x), x.id, others[k + 1..]);
    ProcessedPointwise(q, scope, user, turns, x.id);
    GetIsMembership(Processed(q, scope, user, turns), x.id);
  }

  lemma TurnRuns(q: seq<Mutation>, m: Mutation, t: Turn)
    ensures Run(q, TurnSteps(m, t)) == Take(Run(Take(q, Begin(m.id)), t.ops), Step.Settle(m.id, t.reply))
  {
    var ops: seq<Step> := t.ops;
    FoldConcat(Taking(), q, [Begin(m.id)] + ops, [Step.Settle(m.id, t.reply)]);
    FoldConcat(Taking(), q, [Begin(m.id)], ops);
    assert [Begin(m.id)][..0] == [];
    assert [Step.Settle(m.id, t.reply)][..0] == [];
  }
}
