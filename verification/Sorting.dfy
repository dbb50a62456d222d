/** The stable sort the program's languages provide: elements that compare equal keep their order. */
module Sorting {
  import opened Common

  ghost predicate TotalPreorder<T(!new)>(le: (T, T) -> bool) {
    && (forall a, b :: le(a, b) || le(b, a))
    && (forall a, b, c :: le(a, b) && le(b, c) ==> le(a, c))
  }

  ghost predicate Ordered<T>(le: (T, T) -> bool, q: seq<T>) { forall i, j :: 0 <= i < j < |q| ==> le(q[i], q[j]) }

  /** Puts `x` after everything that may come before it. */
  function Insert<T>(le: (T, T) -> bool, q: seq<T>, x: T): seq<T> {
    if q == [] || le(q[|q| - 1], x) then q + [x]
    else Insert(le, q[..|q| - 1], x) + [q[|q| - 1]]
  }

  function Sort<T>(le: (T, T) -> bool, q: seq<T>): seq<T> {
    if q == [] then [] else Insert(le, Sort(le, q[..|q| - 1]), q[|q| - 1])
  }

  /** The elements that compare equal to `pivot`, in order. */
  function Ties<T>(le: (T, T) -> bool, q: seq<T>, pivot: T): seq<T> {
    if q == [] then []
    else
      var x := q[|q| - 1];
      Ties(le, q[..|q| - 1], pivot) + (if le(x, pivot) && le(pivot, x) then [x] else [])
  }

  lemma {:induction false} InsertMembers<T>(le: (T, T) -> bool, q: seq<T>, x: T)
    ensures multiset(Insert(le, q, x)) == multiset(q) + multiset{x}
  {
    var n := |q| - 1;
    if q != [] && !le(q[n], x) {
      InsertMembers(le, q[..n], x);
      assert q == q[..n] + [q[n]];
    }
  }

  lemma LastOut<T>(q: seq<T>)
    requires q != []
    ensures multiset(q) == multiset(q[..|q| - 1]) + multiset{q[|q| - 1]}
  {
    assert q == q[..|q| - 1] + [q[|q| - 1]];
  }

  /** Sorting loses and invents nothing. */
  lemma {:induction false} SortPermutes<T>(le: (T, T) -> bool, q: seq<T>)
    ensures multiset(Sort(le, q)) == multiset(q)
  {
    if q != [] {
      var n := |q| - 1;
      SortPermutes(le, q[..n]);
      InsertMembers(le, Sort(le, q[..n]), q[n]);
      LastOut(q);
    }
  }

  lemma SameMembers<T>(a: seq<T>, b: seq<T>)
    requires multiset(a) == multiset(b)
    ensures |a| == |b| && forall x :: x in a <==> x in b
  {
    assert |multiset(a)| == |a| && |multiset(b)| == |b|;
    assert forall x :: (x in a <==> x in multiset(a)) && (x in b <==> x in multiset(b));
  }

  lemma {:induction false} InsertOrders<T(!new)>(le: (T, T) -> bool, q: seq<T>, x: T)
    requires TotalPreorder(le) && Ordered(le, q)
    ensures Ordered(le, Insert(le, q, x))
  {
    var n := |q| - 1;
    if q != [] && !le(q[n], x) {
      InsertOrders(le, q[..n], x);
      InsertMembers(le, q[..n], x);
      var shorter := Insert(le, q[..n], x);
      SameMembers(shorter, q[..n] + [x]);
      forall i | 0 <= i < |shorter| ensures le(shorter[i], q[n]) { assert shorter[i] in q[..n] + [x]; }
    }
  }

  lemma {:induction false} SortOrders<T(!new)>(le: (T, T) -> bool, q: seq<T>)
    requires TotalPreorder(le)
    ensures Ordered(le, Sort(le, q))
  {
    if q != [] {
      SortOrders(le, q[..|q| - 1]);
      InsertOrders(le, Sort(le, q[..|q| - 1]), q[|q| - 1]);
    }
  }

  lemma {:induction false} OrderedStays<T>(le: (T, T) -> bool, q: seq<T>)
    requires Ordered(le, q)
    ensures Sort(le, q) == q
  {
    if q != [] {
      OrderedStays(le, q[..|q| - 1]);
      assert q == q[..|q| - 1] + [q[|q| - 1]];
    }
  }

  lemma {:induction false} InsertKeepsTies<T(!new)>(le: (T, T) -> bool, q: seq<T>, x: T, pivot: T)
    requires TotalPreorder(le)
    ensures Ties(le, Insert(le, q, x), pivot) == Ties(le, q + [x], pivot)
  {
    var n := |q| - 1;
    assert (q + [x])[..|q|] == q;
    if q != [] && !le(q[n], x) {
      var shorter := Insert(le, q[..n], x);
      InsertKeepsTies(le, q[..n], x, pivot);
      assert (shorter + [q[n]])[..|shorter|] == shorter;
      assert (q[..n] + [x])[..n] == q[..n];
    }
  }

  /** Elements that compare equal come out in the order they went in. */
  lemma {:induction false} SortIsStable<T(!new)>(le: (T, T) -> bool, q: seq<T>, pivot: T)
    requires TotalPreorder(le)
    ensures Ties(le, Sort(le, q), pivot) == Ties(le, q, pivot)
  {
    if q != [] {
      var sorted := Sort(le, q[..|q| - 1]);
      SortIsStable(le, q[..|q| - 1], pivot);
      InsertKeepsTies(le, sorted, q[|q| - 1], pivot);
      assert (sorted + [q[|q| - 1]])[..|sorted|] == sorted;
    }
  }

  /** Somewhere in `q`, `x` comes before `y`. */
  ghost predicate Precedes<T>(q: seq<T>, x: T, y: T) { exists i, j :: 0 <= i < j < |q| && q[i] == x && q[j] == y }

  lemma PrecedesLonger<T>(q: seq<T>, x: T, y: T, z: T)
    requires Precedes(q, x, y)
    ensures Precedes(q + [z], x, y)
  {
    var i, j :| 0 <= i < j < |q| && q[i] == x && q[j] == y;
    assert (q + [z])[i] == x && (q + [z])[j] == y;
  }

  lemma MemberPrecedesLast<T>(q: seq<T>, x: T, z: T)
    requires x in q
    ensures Precedes(q + [z], x, z)
  {
    var i :| 0 <= i < |q| && q[i] == x;
    assert (q + [z])[i] == x && (q + [z])[|q|] == z;
  }

  lemma {:induction false} InsertKeepsPairs<T>(le: (T, T) -> bool, q: seq<T>, z: T, i: nat, j: nat)
    requires i < j < |q|
    ensures Precedes(Insert(le, q, z), q[i], q[j])
  {
    var n := |q| - 1;
    if le(q[n], z) {
      assert Precedes(q, q[i], q[j]);
      PrecedesLonger(q, q[i], q[j], z);
    } else if j < n {
      InsertKeepsPairs(le, q[..n], z, i, j);
      PrecedesLonger(Insert(le, q[..n], z), q[i], q[j], q[n]);
    } else {
      InsertMembers(le, q[..n], z);
      SameMembers(Insert(le, q[..n], z), q[..n] + [z]);
      assert q[i] in q[..n];
      MemberPrecedesLast(Insert(le, q[..n], z), q[i], q[n]);
    }
  }

  lemma {:induction false} InsertComesAfter<T>(le: (T, T) -> bool, q: seq<T>, z: T, i: nat)
    requires i < |q| && le(q[i], z)
    ensures Precedes(Insert(le, q, z), q[i], z)
  {
    var n := |q| - 1;
    if le(q[n], z) {
      MemberPrecedesLast(q, q[i], z);
    } else {
      InsertComesAfter(le, q[..n], z, i);
      PrecedesLonger(Insert(le, q[..n], z), q[i], z, q[n]);
    }
  }

  /** Elements that are in order already stay in that order. */
  lemma {:induction false} SortKeepsPairs<T>(le: (T, T) -> bool, q: seq<T>, i: nat, j: nat)
    requires i < j < |q| && le(q[i], q[j])
    ensures Precedes(Sort(le, q), q[i], q[j])
  {
    var n := |q| - 1;
    var before := Sort(le, q[..n]);
    if j < n {
      SortKeepsPairs(le, q[..n], i, j);
      var a, b :| 0 <= a < b < |before| && before[a] == q[i] && before[b] == q[j];
      InsertKeepsPairs(le, before, q[n], a, b);
    } else {
      SortPermutes(le, q[..n]);
      SameMembers(before, q[..n]);
      assert q[..n][i] in before;
      var a :| 0 <= a < |before| && before[a] == q[i];
      InsertComesAfter(le, before, q[n], a);
    }
  }

  ghost predicate Distinct<T>(q: seq<T>) { forall i, j :: 0 <= i < j < |q| ==> q[i] != q[j] }

  lemma {:induction false} DistinctCounts<T>(q: seq<T>)
    ensures Distinct(q) <==> forall x :: multiset(q)[x] <= 1
  {
    if q != [] {
      var n := |q| - 1;
      DistinctCounts(q[..n]);
      assert q == q[..n] + [q[n]];
      assert multiset(q) == multiset(q[..n]) + multiset{q[n]};
      assert q[n] in q[..n] <==> multiset(q[..n])[q[n]] >= 1;
      if Distinct(q) {
        assert q[n] !in q[..n];
      } else if Distinct(q[..n]) {
        var i :| 0 <= i < n && q[i] == q[n];
        assert q[..n][i] == q[n];
        assert multiset(q)[q[n]] == multiset(q[..n])[q[n]] + 1 > 1;
      } else {
        var x :| multiset(q[..n])[x] > 1;
        assert multiset(q)[x] > 1;
      }
    }
  }

  /** Sorting elements without duplicates gives elements without duplicates. */
  lemma SortKeepsDistinct<T>(le: (T, T) -> bool, q: seq<T>)
    requires Distinct(q)
    ensures Distinct(Sort(le, q))
  {
    SortPermutes(le, q);
    DistinctCounts(q);
    DistinctCounts(Sort(le, q));
  }

  lemma {:induction false} WithoutKeepsOrder<T(!new)>(le: (T, T) -> bool, q: seq<T>, doomed: T -> bool)
    requires Ordered(le, q)
    ensures Ordered(le, Without(q, doomed))
  {
    if q != [] {
      var rest := Without(q[1..], doomed);
      WithoutKeepsOrder(le, q[1..], doomed);
      WithoutMembers(q[1..], doomed);
      forall i | 0 <= i < |rest|
        ensures le(q[0], rest[i])
      {
        assert rest[i] in rest && rest[i] in q[1..];
        var j :| 0 <= j < |q[1..]| && q[1..][j] == rest[i];
        assert q[j + 1] == rest[i];
      }
    }
  }

  /** The first `limit` of the sorted elements. */
  function First<T>(le: (T, T) -> bool, q: seq<T>, limit: nat): seq<T> {
    var sorted := Sort(le, q);
    sorted[..Min(limit, |sorted|)]
  }

  /** They are in order, and whatever is left out comes after all of them. */
  lemma FirstAreFirst<T(!new)>(le: (T, T) -> bool, q: seq<T>, limit: nat)
    requires TotalPreorder(le)
    ensures
      var r := First(le, q, limit);
      && |r| == Min(limit, |q|) && Ordered(le, r)
      && (forall x :: x in r ==> x in q)
      && (forall x, y :: x in r && y in q && y !in r ==> le(x, y))
      && (|r| < limit ==> forall x :: x in q ==> x in r)
  {
    var sorted := Sort(le, q);
    var r := First(le, q, limit);
    SortOrders(le, q);
    SortPermutes(le, q);
    SameMembers(sorted, q);
    forall x, y | x in r && y in q && y !in r
      ensures le(x, y)
    {
      var i :| 0 <= i < |r| && r[i] == x;
      var j :| 0 <= j < |sorted| && sorted[j] == y;
      assert le(sorted[i], sorted[j]);
    }
  }
}
