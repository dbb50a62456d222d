/**
 * What the server's answer makes of a mutation, read off the storage a completed run leaves and off the next run's
 * snapshot: the HTTP statuses that are retried, the texts and the number of attempts are written out.
 */
module WriteQueueOutcomes {
  import opened Common
  import opened WriteQueue

  /** The call a mutation stands for: all of it but what processing writes. */
  ghost predicate SameCall(m: Mutation, x: Mutation) {
    x.id == m.id && x.scope == m.scope && x.user == m.user && x.createdAt == m.createdAt && x.payload == m.payload
  }

  ghost predicate SameAttempts(m: Mutation, x: Mutation) { SameCall(m, x) && x.attempts == m.attempts }

  /** Waiting for a retry, after one more attempt, with the reason why. */
  ghost predicate Waits(m: Mutation, x: Mutation, why: string) {
    && SameCall(m, x) && x.attempts == m.attempts + 1
    && x.status == FailedRetrying && x.lastError == Some(why)
  }

  /** In conflict, after one more attempt, with the conflict and its reason. */
  ghost predicate Conflicts(m: Mutation, x: Mutation, c: Conflict, why: string) {
    && SameCall(m, x) && x.attempts == m.attempts + 1
    && x.status == Conflicted && x.conflict == Some(c) && x.lastError == Some(why)
  }

  /** An error that is not the server's word on the mutation: no status at all, 5xx and above, or too many requests. */
  ghost predicate Temporary(status: Option<int>) {
    match status
    case None => true
    case Some(code) => code == 429 || code >= 500
  }

  ghost function Given(text: Option<string>, otherwise: string): string {
    match text
    case Some(s) => s
    case None => otherwise
  }

  /** What `x`, left of mutation `m`, must say after the answer. */
  ghost predicate LeftBy(m: Mutation, x: Mutation, r: Reply) {
    match r
    case Committed => false
    case Rejected(c) => Conflicts(m, x, c, c.message)
    case Retry(message) => Waits(m, x, message)
    case Thrown(code, status, text, details) =>
      if Temporary(status) then Waits(m, x, Given(text, "Sync retry scheduled"))
      else
        var message := Given(text, "Server rejected queued mutation");
        Conflicts(m, x, Conflict(Given(code, "SYNC_CONFLICT"), message, Given(details, "{}")), message)
  }

  /** The answers after which the mutation is submitted again. */
  ghost predicate TriedAgain(r: Reply) { r.Retry? || (r.Thrown? && Temporary(r.status)) }

  // ---- One turn ----

  lemma {:induction false} OthersKeepCall(m: Mutation, ops: seq<Op>)
    requires forall k :: 0 <= k < |ops| && ops[k].Enqueue? ==> ops[k].item.id != m.id
    ensures var x := RunOne(Some(m), m.id, ops); x.Some? ==> SameAttempts(m, x.value)
  {
    if ops != [] { OthersKeepCall(m, ops[..|ops| - 1]); }
  }

  lemma {:induction false} GoneStaysGone(id: nat, ops: seq<Op>)
    requires forall k :: 0 <= k < |ops| && ops[k].Enqueue? ==> ops[k].item.id != id
    ensures RunOne(None, id, ops) == None
  {
    if ops != [] { GoneStaysGone(id, ops[..|ops| - 1]); }
  }

  lemma TurnLeaves(before: Option<Mutation>, item: Mutation, t: Turn)
    requires before.Some? ==> SameAttempts(item, before.value)
    requires forall k :: 0 <= k < |t.ops| && t.ops[k].Enqueue? ==> t.ops[k].item.id != item.id
    ensures var x := RunOne(before, item.id, TurnSteps(item, t)); x.Some? ==> LeftBy(item, x.value, t.reply)
  {
    var id, ops: seq<Step> := item.id, t.ops;
    FoldConcat(TakingOne(id), before, [Begin(id)] + ops, [Settle(id, t.reply)]);
    FoldConcat(TakingOne(id), before, [Begin(id)], ops);
    OneStep(before, id, Begin(id));
    var begun := TakeOne(before, id, Begin(id));
    if begun.Some? { OthersKeepCall(begun.value, t.ops); } else { GoneStaysGone(id, t.ops); }
    OneStep(RunOne(before, id, [Begin(id)] + ops), id, Settle(id, t.reply));
  }

  /** Before its turn a candidate is, if still there, the call it was, with no attempt counted. */
  lemma {:induction false} UntouchedUntilItsTurn(m: Mutation, todo: seq<Mutation>, turns: nat -> Turn, i: nat, n: nat)
    requires n <= i < |todo| && DistinctIds(todo) && m == todo[i] && NoReuse(todo, turns)
    ensures var before := RunOne(Some(m), m.id, Steps(todo, turns, n)); before.Some? ==> SameAttempts(m, before.value)
  {
    if n > 0 {
      UntouchedUntilItsTurn(m, todo, turns, i, n - 1);
      FoldConcat(TakingOne(m.id), Some(m), Steps(todo, turns, n - 1), TurnSteps(todo[n - 1], turns(n - 1)));
      var before := RunOne(Some(m), m.id, Steps(todo, turns, n - 1));
      TurnForOthers(before, m.id, todo[n - 1], turns(n - 1));
      if before.Some? {
        OthersKeepCall(before.value, turns(n - 1).ops);
      } else {
        GoneStaysGone(m.id, turns(n - 1).ops);
      }
    }
  }

  /** After its turn nobody addresses it, so it is left as it was settled, or removed. */
  lemma {:induction false} LeftAsSettled(m: Mutation, todo: seq<Mutation>, turns: nat -> Turn, n: nat, i: nat)
    requires i < n <= |todo| && DistinctIds(todo) && m == todo[i] && NoReuse(todo, turns)
    requires NotRequeuedAfter(turns, i, m.id)
    ensures
      var x := RunOne(Some(m), m.id, Steps(todo, turns, n));
      x.Some? ==> LeftBy(m, x.value, turns(i).reply)
  {
    var before := RunOne(Some(m), m.id, Steps(todo, turns, n - 1));
    FoldConcat(TakingOne(m.id), Some(m), Steps(todo, turns, n - 1), TurnSteps(todo[n - 1], turns(n - 1)));
    if i == n - 1 {
      UntouchedUntilItsTurn(m, todo, turns, i, i);
      TurnLeaves(before, m, turns(i));
    } else {
      LeftAsSettled(m, todo, turns, n - 1, i);
      TurnForOthers(before, m.id, todo[n - 1], turns(n - 1));
      PassedByUnchanged(before, m.id, turns(n - 1).ops);
    }
  }

  // ---- The stored list ----

  /**
   * What a completed run leaves of candidate `i`: nothing once committed; otherwise, unless removed, the mutation as
   * the answer has it. It is a candidate of the next run exactly if the answer was to be tried again.
   */
  lemma AnswerDecides(q: seq<Mutation>, scope: string, user: string, turns: nat -> Turn, i: nat)
    requires Stored(q) && AlwaysFresh(q, ScopeSteps(q, scope, user, turns))
    requires i < |Candidates(q, scope, user)| && NoReuse(Candidates(q, scope, user), turns)
    requires NotRequeuedAfter(turns, i, Candidates(q, scope, user)[i].id)
    ensures
      var m := Candidates(q, scope, user)[i];
      var after := Processed(q, scope, user, turns);
      && (forall x :: x in after && x.id == m.id ==> LeftBy(m, x, turns(i).reply))
      && (forall x :: x in after && x.id == m.id ==>
            (x in Candidates(after, scope, user) <==> TriedAgain(turns(i).reply)))
  {
    var todo := Candidates(q, scope, user);
    var m, after := todo[i], Processed(q, scope, user, turns);
    CandidatesAreDueInOrder(q, scope, user);
    assert m in todo;
    GetIsMembership(q, m.id);
    ProcessedPointwise(q, scope, user, turns, m.id);
    LeftAsSettled(m, todo, turns, |todo|, i);
    GetIsMembership(after, m.id);
    CandidatesAreDueInOrder(after, scope, user);
  }

  /** The snapshot holds what is queued, waiting for a retry, or was being submitted when a run was cut short. */
  lemma SnapshotIsDue(q: seq<Mutation>, scope: string, user: string)
    requires Stored(q)
    ensures forall m :: m in Candidates(q, scope, user) <==>
              m in q && m.scope == scope && m.user == user && m.status in {LocalQueued, FailedRetrying, Syncing}
  {
    CandidatesAreDueInOrder(q, scope, user);
  }

  /** Marking a mutation for submission, and requeueing it, write status, error and conflict, and nothing else. */
  lemma MarksInPlace(q: seq<Mutation>, m: Mutation)
    requires Stored(q) && m in q
    ensures m.(status := Syncing, lastError := None) in Take(q, Begin(m.id))
    ensures m.(status := LocalQueued, conflict := None, lastError := None) in Take(q, Requeue(m.id))
    ensures forall x :: x in q && x != m ==> x in Take(q, Begin(m.id)) && x in Take(q, Requeue(m.id))
  {
    GetIsMembership(q, m.id);
    StepIsPointwise(q, Begin(m.id), m.id);
    StepIsPointwise(q, Requeue(m.id), m.id);
    GetIsMembership(Take(q, Begin(m.id)), m.id);
    GetIsMembership(Take(q, Requeue(m.id)), m.id);
    forall x | x in q && x != m
      ensures x in Take(q, Begin(m.id)) && x in Take(q, Requeue(m.id))
    {
      OthersStay(q, m, x);
    }
  }

  lemma OthersStay(q: seq<Mutation>, m: Mutation, x: Mutation)
    requires Stored(q) && m in q && x in q && x != m
    ensures x in Take(q, Begin(m.id)) && x in Take(q, Requeue(m.id))
  {
    GetIsMembership(q, x.id);
    GetIsMembership(q, m.id);
    StepIsPointwise(q, Begin(m.id), x.id);
    StepIsPointwise(q, Requeue(m.id), x.id);
    GetIsMembership(Take(q, Begin(m.id)), x.id);
    GetIsMembership(Take(q, Requeue(m.id)), x.id);
  }
}
