/**
 * Replay protection: a table of request nonces that forgets those older than five minutes, compared with a full history
 * that forgets nothing. Times are microseconds and the clock does not go back.
 */
module NonceTable {
  import opened Common

  datatype Stamp = Absent | Unreadable | At(time: int)

  /** A request as the check sees it; `safe` methods are not checked. */
  datatype Request = Request(safe: bool, nonce: string, stamp: Stamp)

  datatype Answer = NotChecked | MissingHeaders | BadTimestamp | OutsideWindow | Used | Accepted

  datatype Acceptance = Acceptance(nonce: string, time: int)

  predicate InWindow(stamp: int, now: int) { -5 * 60_000_000 <= now - stamp <= 5 * 60_000_000 }

  /** Nonces recorded since `since`. */
  function Pruned(table: map<string, int>, since: int): map<string, int> {
    table - (set n | n in table && table[n] < since)
  }

  /** Why a request does not get as far as the table, if it does not. */
  function Screened(r: Request, now: int): Option<Answer> {
    if r.safe then Some(NotChecked)
    else if r.nonce == "" || r.stamp.Absent? then Some(MissingHeaders)
    else if r.stamp.Unreadable? then Some(BadTimestamp)
    else if !InWindow(r.stamp.time, now) then Some(OutsideWindow)
    else None
  }

  function AnswerTo(table: map<string, int>, r: Request, now: int): Answer {
    if Screened(r, now).Some? then Screened(r, now).value
    else if r.nonce in Pruned(table, now - 5 * 60_000_000) then Used
    else Accepted
  }

  /** A rejected insertion rolls the pruning back with it. */
  function After(table: map<string, int>, r: Request, now: int): map<string, int> {
    if AnswerTo(table, r, now) == Accepted then Pruned(table, now - 5 * 60_000_000)[r.nonce := now] else table
  }

  // ---- The full history ----

  ghost predicate AcceptedSince(history: seq<Acceptance>, nonce: string, since: int) {
    exists i :: 0 <= i < |history| && history[i].nonce == nonce && history[i].time >= since
  }

  /** The same check against everything ever accepted. */
  ghost function FullAnswer(history: seq<Acceptance>, r: Request, now: int): Answer {
    if Screened(r, now).Some? then Screened(r, now).value
    else if AcceptedSince(history, r.nonce, now - 5 * 60_000_000) then Used
    else Accepted
  }

  ghost function FullAfter(history: seq<Acceptance>, r: Request, now: int): seq<Acceptance> {
    if FullAnswer(history, r, now) == Accepted then history + [Acceptance(r.nonce, now)] else history
  }

  /** The table holds only acceptances, and all that are still inside the window. */
  ghost predicate Agrees(table: map<string, int>, history: seq<Acceptance>, clock: int) {
    && (forall n :: n in table ==> exists i :: 0 <= i < |history| && history[i] == Acceptance(n, table[n]))
    && (forall i :: 0 <= i < |history| ==> history[i].time <= clock)
    && (forall i ::
        0 <= i < |history| && history[i].time >= clock - 5 * 60_000_000 ==>
        history[i].nonce in table && table[history[i].nonce] >= history[i].time)
  }

  lemma SameAnswer(table: map<string, int>, history: seq<Acceptance>, clock: int, r: Request, now: int)
    requires Agrees(table, history, clock) && clock <= now
    ensures AnswerTo(table, r, now) == FullAnswer(history, r, now)
  {
    var since := now - 5 * 60_000_000;
    if r.nonce in Pruned(table, since) {
      var i :| 0 <= i < |history| && history[i] == Acceptance(r.nonce, table[r.nonce]);
    }
    if AcceptedSince(history, r.nonce, since) {
      var i :| 0 <= i < |history| && history[i].nonce == r.nonce && history[i].time >= since;
      assert history[i].nonce in table;
    }
  }

  lemma AcceptKeeps(table: map<string, int>, history: seq<Acceptance>, clock: int, nonce: string, now: int)
    requires Agrees(table, history, clock) && clock <= now
    ensures Agrees(Pruned(table, now - 5 * 60_000_000)[nonce := now], history + [Acceptance(nonce, now)], now)
  {
    var table', history' := Pruned(table, now - 5 * 60_000_000)[nonce := now], history + [Acceptance(nonce, now)];
    forall n | n in table'
      ensures exists i :: 0 <= i < |history'| && history'[i] == Acceptance(n, table'[n])
    {
      if n == nonce {
        assert history'[|history|] == Acceptance(n, table'[n]);
      } else {
        var i :| 0 <= i < |history| && history[i] == Acceptance(n, table[n]);
        assert history'[i] == Acceptance(n, table'[n]);
      }
    }
  }

  datatype Event = Event(request: Request, now: int)

  ghost predicate ClockFrom(clock: int, events: seq<Event>)
    decreases |events|
  {
    events != [] ==> clock <= events[0].now && ClockFrom(events[0].now, events[1..])
  }

  /** Answers of the pruned table, request by request. */
  function Answers(table: map<string, int>, events: seq<Event>): seq<Answer>
    decreases |events|
  {
    if events == [] then []
    else
      [AnswerTo(table, events[0].request, events[0].now)] +
      Answers(After(table, events[0].request, events[0].now), events[1..])
  }

  ghost function FullAnswers(history: seq<Acceptance>, events: seq<Event>): seq<Answer>
    decreases |events|
  {
    if events == [] then []
    else
      [FullAnswer(history, events[0].request, events[0].now)] +
      FullAnswers(FullAfter(history, events[0].request, events[0].now), events[1..])
  }

  /**
   * Forgetting old nonces, and rolling that back, is never noticed: over any run the answers are those of the full
   * history.
   */
  lemma {:induction false} PruningIsUnobservable(table: map<string, int>, history: seq<Acceptance>, clock: int,
      events: seq<Event>)
    requires Agrees(table, history, clock) && ClockFrom(clock, events)
    ensures Answers(table, events) == FullAnswers(history, events)
    decreases |events|
  {
    if events != [] {
      var r, now := events[0].request, events[0].now;
      SameAnswer(table, history, clock, r, now);
      if AnswerTo(table, r, now) == Accepted { AcceptKeeps(table, history, clock, r.nonce, now); }
      PruningIsUnobservable(After(table, r, now), FullAfter(history, r, now), now, events[1..]);
    }
  }

  // ---- What the table guarantees ----

  /** The nonce was recorded at `at` or later. */
  ghost predicate Recorded(table: map<string, int>, nonce: string, at: int) { nonce in table && table[nonce] >= at }

  /** Within five minutes a recorded nonce is refused, and whatever comes in leaves it recorded. */
  lemma RecordedIsRefused(table: map<string, int>, nonce: string, at: int, r: Request, now: int)
    requires Recorded(table, nonce, at) && now - at <= 5 * 60_000_000 && at <= now
    ensures r.nonce == nonce ==> AnswerTo(table, r, now) != Accepted
    ensures Recorded(After(table, r, now), nonce, at)
  {
  }

  lemma {:induction false} ClockOnlyRises(clock: int, events: seq<Event>, j: nat)
    requires ClockFrom(clock, events) && j < |events|
    ensures clock <= events[j].now
    decreases |events|
  {
    if j > 0 { ClockOnlyRises(events[0].now, events[1..], j - 1); }
  }

  lemma {:induction false} AcceptedOnlyLater(table: map<string, int>, nonce: string, at: int, clock: int,
      events: seq<Event>, j: nat)
    requires Recorded(table, nonce, at) && at <= clock && ClockFrom(clock, events)
    requires j < |events| == |Answers(table, events)| && events[j].request.nonce == nonce
      && Answers(table, events)[j] == Accepted
    ensures events[j].now - at > 5 * 60_000_000
    decreases |events|
  {
    var now := events[0].now;
    if now - at > 5 * 60_000_000 {
      ClockOnlyRises(clock, events, j);
      if j > 0 { ClockOnlyRises(now, events[1..], j - 1); }
    } else {
      RecordedIsRefused(table, nonce, at, events[0].request, now);
      assert j > 0;
      AcceptedOnlyLater(After(table, events[0].request, now), nonce, at, now, events[1..], j - 1);
    }
  }

  lemma {:induction false} OneAnswerEach(table: map<string, int>, events: seq<Event>)
    ensures |Answers(table, events)| == |events|
    decreases |events|
  {
    if events != [] { OneAnswerEach(After(table, events[0].request, events[0].now), events[1..]); }
  }

  /** Over any run of the pruned table, two acceptances of one nonce are more than five minutes apart. */
  lemma {:induction false} AcceptancesAreSpacedOut(table: map<string, int>, clock: int, events: seq<Event>, i: nat,
      j: nat)
    requires ClockFrom(clock, events) && i < j < |events| == |Answers(table, events)|
    requires events[i].request.nonce == events[j].request.nonce
    requires Answers(table, events)[i] == Answers(table, events)[j] == Accepted
    ensures events[j].now - events[i].now > 5 * 60_000_000
    decreases |events|
  {
    var next, now := After(table, events[0].request, events[0].now), events[0].now;
    OneAnswerEach(next, events[1..]);
    if i == 0 {
      AcceptedOnlyLater(next, events[0].request.nonce, now, now, events[1..], j - 1);
    } else {
      AcceptancesAreSpacedOut(next, now, events[1..], i - 1, j - 1);
    }
  }

  /** So the same request, nonce and timestamp alike, is accepted twice only if its timestamp was ahead of the clock. */
  lemma AcceptedTwiceWasAhead(table: map<string, int>, clock: int, events: seq<Event>, i: nat, j: nat)
    requires ClockFrom(clock, events) && i < j < |events| && events[i].request == events[j].request
    requires |Answers(table, events)| == |events| && Answers(table, events)[i] == Answers(table, events)[j] == Accepted
    ensures events[j].request.stamp.At? && events[j].request.stamp.time > events[i].now
  {
    AcceptancesAreSpacedOut(table, clock, events, i, j);
    AcceptedInWindow(table, events, j);
  }

  lemma {:induction false} AcceptedInWindow(table: map<string, int>, events: seq<Event>, j: nat)
    requires j < |events| == |Answers(table, events)| && Answers(table, events)[j] == Accepted
    ensures events[j].request.stamp.At? && InWindow(events[j].request.stamp.time, events[j].now)
    decreases |events|
  {
    var next := After(table, events[0].request, events[0].now);
    OneAnswerEach(next, events[1..]);
    if j > 0 { AcceptedInWindow(next, events[1..], j - 1); }
  }

  /**
   * The same request that the table accepted at `first`: some later time accepts it again, if nothing comes in between,
   * exactly when its timestamp was ahead of the clock.
   */
  lemma AcceptedOnceUnlessAhead(table: map<string, int>, r: Request, first: int)
    requires AnswerTo(table, r, first) == Accepted
    ensures (forall later :: later > first ==> AnswerTo(After(table, r, first), r, later) != Accepted) <==>
      r.stamp.time <= first
  {
    var after := After(table, r, first);
    assert after[r.nonce] == first;
    forall later | first < later && r.stamp.time <= first
      ensures AnswerTo(after, r, later) != Accepted
    {
      if later - first <= 5 * 60_000_000 { RecordedIsRefused(after, r.nonce, first, r, later); }
    }
    if r.stamp.time > first {
      var later := r.stamp.time + 5 * 60_000_000;
      assert r.nonce !in Pruned(after, later - 5 * 60_000_000);
      assert AnswerTo(after, r, later) == Accepted;
    }
  }

  // ---- When a request is accepted ----

  /** Both headers present, the timestamp readable and within five minutes of the clock, before or after. */
  ghost predicate WellFormed(r: Request, now: int) {
    !r.safe && r.nonce != "" && r.stamp.At? && r.stamp.time - 300_000_000 <= now <= r.stamp.time + 300_000_000
  }

  /** What stands in the way of a request, in the order it is found. */
  lemma RefusedInOrder(table: map<string, int>, r: Request, now: int)
    ensures
      var a := AnswerTo(table, r, now);
      && (a == NotChecked <==> r.safe)
      && (a == MissingHeaders <==> !r.safe && (r.nonce == "" || r.stamp == Absent))
      && (a == BadTimestamp <==> !r.safe && r.nonce != "" && r.stamp == Unreadable)
      && (a == OutsideWindow <==>
            && !r.safe && r.nonce != "" && r.stamp.At?
            && (now - r.stamp.time > 300_000_000 || r.stamp.time - now > 300_000_000))
      && (a == Used || a == Accepted <==> WellFormed(r, now))
  {
  }

  /** Some earlier request of the run with that nonce was accepted, five minutes ago or less. */
  ghost predicate AcceptedLately(table: map<string, int>, events: seq<Event>, j: nat)
    requires j < |events| == |Answers(table, events)|
  {
    exists i :: 0 <= i < j && Answers(table, events)[i] == Accepted
                && events[i].request.nonce == events[j].request.nonce && events[j].now - events[i].now <= 300_000_000
  }

  /** The table itself has the nonce from no more than five minutes before `now`. */
  ghost predicate HasLately(table: map<string, int>, nonce: string, now: int) {
    nonce in table && now - table[nonce] <= 300_000_000
  }

  lemma NextHasLately(table: map<string, int>, e: Event, nonce: string, later: int)
    requires e.now <= later
    ensures HasLately(After(table, e.request, e.now), nonce, later) <==>
      || HasLately(table, nonce, later)
      || (AnswerTo(table, e.request, e.now) == Accepted && e.request.nonce == nonce && later - e.now <= 300_000_000)
  {
  }

  /**
   * Request by request: accepted exactly if well-formed and the nonce has not been accepted in the last five minutes.
   */
  lemma {:induction false} AcceptedIffNew(table: map<string, int>, clock: int, events: seq<Event>, j: nat)
    requires ClockFrom(clock, events) && j < |events| == |Answers(table, events)|
    ensures Answers(table, events)[j] == Accepted <==>
      && WellFormed(events[j].request, events[j].now)
      && !HasLately(table, events[j].request.nonce, events[j].now) && !AcceptedLately(table, events, j)
    decreases |events|
  {
    var e, later := events[0], events[1..];
    var next := After(table, e.request, e.now);
    OneAnswerEach(next, later);
    if j > 0 {
      ClockOnlyRises(e.now, later, j - 1);
      NextHasLately(table, e, events[j].request.nonce, events[j].now);
      AcceptedIffNew(next, e.now, later, j - 1);
      LatelyFromTheNext(table, events, j);
    }
  }

  lemma LatelyFromTheNext(table: map<string, int>, events: seq<Event>, j: nat)
    requires 0 < j < |events| == |Answers(table, events)|
    requires |Answers(After(table, events[0].request, events[0].now), events[1..])| == |events| - 1
    ensures AcceptedLately(table, events, j) <==>
      || AcceptedLately(After(table, events[0].request, events[0].now), events[1..], j - 1)
      || (Answers(table, events)[0] == Accepted && events[0].request.nonce == events[j].request.nonce
          && events[j].now - events[0].now <= 300_000_000)
  {
    var next := After(table, events[0].request, events[0].now);
    if AcceptedLately(next, events[1..], j - 1) {
      var i :| 0 <= i < j - 1 && Answers(next, events[1..])[i] == Accepted
               && events[1..][i].request.nonce == events[1..][j - 1].request.nonce
               && events[1..][j - 1].now - events[1..][i].now <= 300_000_000;
      assert Answers(table, events)[i + 1] == Accepted && events[i + 1] == events[1..][i];
    }
    if i :| 0 < i < j && Answers(table, events)[i] == Accepted
            && events[i].request.nonce == events[j].request.nonce && events[j].now - events[i].now <= 300_000_000 {
      assert Answers(next, events[1..])[i - 1] == Accepted && events[1..][i - 1] == events[i];
    }
  }

  class Guard {
    var table: map<string, int>

    constructor ()
      ensures table == map[] && Agrees(table, [], 0)
    {
      table := map[];
    }

    method VerifyReplayHeaders(r: Request, now: int) returns (answer: Answer)
      modifies this
      ensures answer == AnswerTo(old(table), r, now) && table == After(old(table), r, now)
    {
      if r.safe {
        return NotChecked;
      }
      if r.nonce == "" || r.stamp.Absent? {
        return MissingHeaders;
      }
      if r.stamp.Unreadable? {
        return BadTimestamp;
      }
      if now - r.stamp.time > 5 * 60_000_000 || r.stamp.time - now > 5 * 60_000_000 {
        return OutsideWindow;
      }
      var committed := table;
      var validSince := now - 5 * 60_000_000;
      table := table - (set n | n in table && table[n] < validSince);
      if r.nonce in table {
        table := committed;
        return Used;
      }
      table := table[r.nonce := now];
      return Accepted;
    }
  }
}
