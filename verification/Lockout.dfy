/** The login lockout of one account: five wrong passwords lock it for a quarter of an hour. Times are microseconds. */
module Lockout {
  import opened Common

  const MAX_FAILURES: nat := 5

  datatype State = State(failed: nat, lockedUntil: Option<int>)

  datatype Mfa = NotEnabled | SecretMissing | CodeMissing | CodeWrong | CodeRight

  /** What one login request brings, judged by the password and code checks. */
  datatype Attempt = Attempt(now: int, active: bool, passwordRight: bool, mfa: Mfa)

  datatype Answer = Inactive | Locked | WrongPassword | MfaFailed | LoggedIn

  const FRESH: State := State(0, None)

  predicate LockedAt(s: State, now: int) { s.lockedUntil.Some? && s.lockedUntil.value > now }

  predicate MfaPasses(m: Mfa) { m == NotEnabled || m == CodeRight }

  function AnswerTo(s: State, a: Attempt): Answer {
    if !a.active then Inactive
    else if LockedAt(s, a.now) then Locked
    else if !a.passwordRight then WrongPassword
    else if !MfaPasses(a.mfa) then MfaFailed
    else LoggedIn
  }

  /** A wrong password is counted; the fifth locks the account and starts the count over. */
  function After(s: State, a: Attempt): State {
    match AnswerTo(s, a)
    case WrongPassword =>
      if s.failed + 1 >= MAX_FAILURES then State(0, Some(a.now + 15 * 60_000_000)) else s.(failed := s.failed + 1)
    case LoggedIn => FRESH
    case _ => s
  }

  function Run(s: State, attempts: seq<Attempt>): State
    decreases |attempts|
  {
    if attempts == [] then s else Run(After(s, attempts[0]), attempts[1..])
  }

  /** How many of the attempts are answered so. */
  function Count(s: State, attempts: seq<Attempt>, answer: Answer): nat
    decreases |attempts|
  {
    if attempts == [] then 0
    else (if AnswerTo(s, attempts[0]) == answer then 1 else 0) + Count(After(s, attempts[0]), attempts[1..], answer)
  }

  /** Between requests the count is at most four. */
  predicate Valid(s: State) { s.failed < MAX_FAILURES }

  lemma {:induction false} CountStaysBelowFive(s: State, attempts: seq<Attempt>)
    requires Valid(s)
    ensures Valid(Run(s, attempts))
    decreases |attempts|
  {
    if attempts != [] { CountStaysBelowFive(After(s, attempts[0]), attempts[1..]); }
  }

  /** All attempts fall into the quarter of an hour that starts at `start`. */
  predicate Within(attempts: seq<Attempt>, start: int) {
    forall i :: 0 <= i < |attempts| ==> start <= attempts[i].now < start + 15 * 60_000_000
  }

  /** While locked no password is looked at, nor does anything extend or lift the lock. */
  lemma {:induction false} LockedOut(s: State, attempts: seq<Attempt>)
    requires forall i :: 0 <= i < |attempts| ==> LockedAt(s, attempts[i].now)
    ensures Run(s, attempts) == s && Count(s, attempts, WrongPassword) == Count(s, attempts, LoggedIn) == 0
    decreases |attempts|
  {
    if attempts != [] {
      assert After(s, attempts[0]) == s;
      LockedOut(s, attempts[1..]);
    }
  }

  /**
   * In any quarter of an hour, from any state, the wrong passwords evaluated are at most five less those already
   * counted, and four more for each successful login in between.
   */
  lemma {:induction false} WrongPasswordsAreBounded(s: State, attempts: seq<Attempt>, start: int)
    requires Valid(s) && Within(attempts, start)
    ensures Count(s, attempts, WrongPassword) <= MAX_FAILURES - s.failed + 4 * Count(s, attempts, LoggedIn)
    decreases |attempts|
  {
    if attempts != [] {
      var next := After(s, attempts[0]);
      if AnswerTo(s, attempts[0]) == WrongPassword && s.failed + 1 >= MAX_FAILURES {
        LockedOut(next, attempts[1..]);
      } else {
        WrongPasswordsAreBounded(next, attempts[1..], start);
      }
    }
  }

  /**
   * Wherever a history is cut, a following quarter of an hour without a successful login holds at most five
   * wrong-password evaluations.
   */
  lemma AtMostFiveWrongPasswords(history: seq<Attempt>, span: seq<Attempt>, start: int)
    requires Within(span, start) && Count(Run(FRESH, history), span, LoggedIn) == 0
    ensures Count(Run(FRESH, history), span, WrongPassword) <= 5
  {
    CountStaysBelowFive(FRESH, history);
    WrongPasswordsAreBounded(Run(FRESH, history), span, start);
  }

  /**
   * Without a login in between, an account gets locked exactly when the wrong passwords, with those already
   * counted, reach five.
   */
  lemma {:induction false} LockComesWithTheFifth(s: State, attempts: seq<Attempt>)
    requires Valid(s) && s.lockedUntil.None? && Count(s, attempts, LoggedIn) == 0
    ensures Run(s, attempts).lockedUntil.None? <==> s.failed + Count(s, attempts, WrongPassword) < MAX_FAILURES
    ensures Run(s, attempts).lockedUntil.None? ==>
      Run(s, attempts).failed == s.failed + Count(s, attempts, WrongPassword)
    decreases |attempts|
  {
    if attempts != [] {
      var next := After(s, attempts[0]);
      if next.lockedUntil.None? {
        LockComesWithTheFifth(next, attempts[1..]);
      } else {
        OnceLockedMarked(next, attempts[1..]);
      }
    }
  }

  /** Only a login clears the mark of a lock, even after it has run out. */
  lemma {:induction false} OnceLockedMarked(s: State, attempts: seq<Attempt>)
    requires s.lockedUntil.Some? && Count(s, attempts, LoggedIn) == 0
    ensures Run(s, attempts).lockedUntil.Some?
    decreases |attempts|
  {
    if attempts != [] { OnceLockedMarked(After(s, attempts[0]), attempts[1..]); }
  }

  /** Logging in takes an active account that is not locked, the right password and, if enabled, the right code. */
  lemma LogsInIff(s: State, a: Attempt)
    ensures AnswerTo(s, a) == LoggedIn <==>
      && a.active && (s.lockedUntil.None? || s.lockedUntil.value <= a.now)
      && a.passwordRight && a.mfa in {NotEnabled, CodeRight}
    ensures AnswerTo(s, a) == WrongPassword <==>
      a.active && (s.lockedUntil.None? || s.lockedUntil.value <= a.now) && !a.passwordRight
    ensures AnswerTo(s, a) == Locked <==> a.active && s.lockedUntil.Some? && s.lockedUntil.value > a.now
    ensures AnswerTo(s, a) == Inactive <==> !a.active
  {
  }

  /** The lock that comes with a wrong password lasts a quarter of an hour; after it five more are allowed. */
  lemma LockLasts(s: State, a: Attempt, later: Attempt)
    requires Valid(s) && AnswerTo(s, a) == WrongPassword && s.failed == 4 && later.active
    ensures After(s, a).failed == 0
    ensures AnswerTo(After(s, a), later) == Locked <==> later.now < a.now + 900_000_000
  {
  }

  lemma {:induction false} RunOn(s: State, a: seq<Attempt>, b: seq<Attempt>)
    ensures Run(s, a + b) == Run(Run(s, a), b)
    decreases |a|
  {
    if a == [] {
      assert a + b == b;
    } else {
      assert (a + b)[1..] == a[1..] + b;
      RunOn(After(s, a[0]), a[1..], b);
    }
  }

  /**
   * A login wipes the slate clean, whatever came before: until the next one, the account gets locked exactly when five
   * wrong passwords have come since, and short of that they are what is counted.
   */
  lemma LoginStartsOver(s: State, before: seq<Attempt>, login: Attempt, since: seq<Attempt>)
    requires AnswerTo(Run(s, before), login) == LoggedIn && Count(State(0, None), since, LoggedIn) == 0
    ensures
      var now := Run(s, before + [login] + since);
      var wrong := Count(State(0, None), since, WrongPassword);
      && (now.lockedUntil == None <==> wrong < 5)
      && (wrong < 5 ==> now.failed == wrong)
  {
    RunOn(s, before + [login], since);
    RunOn(s, before, [login]);
    assert [login][1..] == [];
    assert Run(s, before + [login]) == After(Run(s, before), login);
    LockComesWithTheFifth(State(0, None), since);
  }

  class Account {
    var failedLoginAttempts: nat
    var lockedUntil: Option<int>

    function Contents(): State
      reads this
    {
      State(failedLoginAttempts, lockedUntil)
    }

    constructor ()
      ensures Contents() == FRESH
    {
      failedLoginAttempts, lockedUntil := 0, None;
    }

    method Login(a: Attempt) returns (answer: Answer)
      modifies this
      ensures answer == AnswerTo(old(Contents()), a) && Contents() == After(old(Contents()), a)
    {
      if !a.active {
        return Inactive;
      }
      if lockedUntil.Some? && lockedUntil.value > a.now {
        return Locked;
      }
      if !a.passwordRight {
        failedLoginAttempts := failedLoginAttempts + 1;
        if failedLoginAttempts >= MAX_FAILURES {
          lockedUntil := Some(a.now + 15 * 60_000_000);
          failedLoginAttempts := 0;
        }
        return WrongPassword;
      }
      if a.mfa != NotEnabled && a.mfa != CodeRight {
        return MfaFailed;
      }
      failedLoginAttempts := 0;
      lockedUntil := None;
      return LoggedIn;
    }
  }
}
