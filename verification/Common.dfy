/** Small shared vocabulary: optional values, results of handlers that may be rejected, and first-match search. */
module Common {

  datatype Option<+T> = None | Some(value: T)

  /** A handler either commits (`Ok`) or raises an application error before its commit (`Rejected`). */
  datatype Outcome<+T, +E> = Ok(value: T) | Rejected(error: E)

  function Min(a: int, b: int): int { if a <= b then a else b }

  function Max(a: int, b: int): int { if a <= b then b else a }

  /**
   * The first position that satisfies `p`: what a query without an ORDER BY returns, rows being kept in insertion
   * order.
   */
  function FirstIndex<T>(s: seq<T>, p: T -> bool): (r: Option<nat>)
    ensures r.Some? ==> r.value < |s| && p(s[r.value]) && forall i :: 0 <= i < r.value ==> !p(s[i])
    ensures r.None? ==> forall i :: 0 <= i < |s| ==> !p(s[i])
  {
    if s == [] then None
    else if p(s[0]) then Some(0)
    else
      match FirstIndex(s[1..], p)
      case None => assert forall i :: 0 < i < |s| ==> s[i] == s[1..][i - 1]; None
      case Some(i) => assert forall j :: 0 < j < |s| ==> s[j] == s[1..][j - 1]; Some(i + 1)
  }

  /** First-match search is insensitive to rows appended later, once there is a match. */
  lemma FirstIndexStable<T>(s: seq<T>, t: seq<T>, p: T -> bool)
    requires FirstIndex(s, p).Some?
    requires |s| <= |t| && forall i :: 0 <= i < |s| ==> p(s[i]) == p(t[i])
    ensures FirstIndex(t, p) == FirstIndex(s, p)
  {
    var i := FirstIndex(s, p).value;
    var r := FirstIndex(t, p);
    assert p(t[i]);
    assert forall k :: 0 <= k < i ==> !p(s[k]);
  }

  /** The elements that are not doomed, in order. */
  function Without<T>(q: seq<T>, doomed: T -> bool): seq<T> {
    if q == [] then []
    else if doomed(q[0]) then Without(q[1..], doomed)
    else [q[0]] + Without(q[1..], doomed)
  }

  lemma {:induction false} WithoutMembers<T(!new)>(q: seq<T>, doomed: T -> bool)
    ensures forall x :: x in Without(q, doomed) <==> x in q && !doomed(x)
  {
    if q != [] {
      WithoutMembers(q[1..], doomed);
      assert q == [q[0]] + q[1..];
    }
  }

  lemma {:induction false} SubsetSize<T>(a: set<T>, b: set<T>)
    requires a <= b
    ensures |a| <= |b|
    decreases |a|
  {
    if a != {} {
      var x :| x in a;
      SubsetSize(a - {x}, b - {x});
    }
  }

  lemma SubsetOfSameSize<T>(a: set<T>, b: set<T>)
    requires a <= b && |a| == |b|
    ensures a == b
  {
    if a != b {
      var x :| x in b && x !in a;
      SubsetSize(a, b - {x});
    }
  }

  /** Steps taken one after the other. */
  function Fold<S, E>(step: (S, E) -> S, s: S, es: seq<E>): S {
    if es == [] then s else step(Fold(step, s, es[..|es| - 1]), es[|es| - 1])
  }

  lemma {:induction false} FoldConcat<S, E>(step: (S, E) -> S, s: S, a: seq<E>, b: seq<E>)
    ensures Fold(step, s, a + b) == Fold(step, Fold(step, s, a), b)
  {
    if b == [] {
      assert a + b == a;
    } else {
      var n := |b| - 1;
      assert (a + b)[..|a + b| - 1] == a + b[..n];
      FoldConcat(step, s, a, b[..n]);
    }
  }
}
