/** ORDER BY and LIMIT as functions: a stable insertion sort by a total
    preorder, and the "first k after sorting" rule. */
module Sorting {

  ghost predicate TotalPreorder<T(!new)>(le: (T, T) -> bool)
  {
    && (forall a, b :: le(a, b) || le(b, a))
    && (forall a, b, c :: le(a, b) && le(b, c) ==> le(a, c))
  }

  ghost predicate Sorted<T>(s: seq<T>, le: (T, T) -> bool)
  {
    forall i, j :: 0 <= i < j < |s| ==> le(s[i], s[j])
  }

  /** Inserts `x` before the first element it does not follow. */
  function Insert<T(!new)>(x: T, s: seq<T>, le: (T, T) -> bool): (r: seq<T>)
    requires TotalPreorder(le)
    requires Sorted(s, le)
    ensures multiset(r) == multiset(s) + multiset{x}
    ensures Sorted(r, le)
  {
    if s == [] then [x]
    else if le(x, s[0]) then
      PrependPreceding(x, s, le);
      [x] + s
    else
      var rest := Insert(x, s[1..], le);
      assert s == [s[0]] + s[1..];
      HeadPrecedesInsert(x, s, rest, le);
      [s[0]] + rest
  }

  /** An element that precedes the head of a sorted sequence can go in front. */
  lemma PrependPreceding<T(!new)>(x: T, s: seq<T>, le: (T, T) -> bool)
    requires TotalPreorder(le)
    requires s != [] && Sorted(s, le) && le(x, s[0])
    ensures Sorted([x] + s, le)
  {
    forall j | 0 < j < |s|
      ensures le(x, s[j])
    {
      assert le(s[0], s[j]);
    }
  }

  /** The head of a sorted sequence can stay in front of the result of
      inserting an element it precedes into the tail. */
  lemma HeadPrecedesInsert<T>(x: T, s: seq<T>, rest: seq<T>, le: (T, T) -> bool)
    requires s != [] && Sorted(s, le) && le(s[0], x)
    requires multiset(rest) == multiset(s[1..]) + multiset{x} && Sorted(rest, le)
    ensures Sorted([s[0]] + rest, le)
  {
    forall j | 0 <= j < |rest|
      ensures le(s[0], rest[j])
    {
      assert rest[j] in multiset(rest);
      if rest[j] != x {
        assert rest[j] in multiset(s[1..]);
        var k :| 0 <= k < |s[1..]| && s[1..][k] == rest[j];
        assert s[k + 1] == rest[j];
      }
    }
  }

  /** Sorts `s` by `le`; elements that compare equal keep their order. */
  function SortBy<T(!new)>(s: seq<T>, le: (T, T) -> bool): (r: seq<T>)
    requires TotalPreorder(le)
    ensures multiset(r) == multiset(s)
    ensures |r| == |s|
    ensures Sorted(r, le)
  {
    if s == [] then []
    else
      assert s == [s[0]] + s[1..];
      var r := Insert(s[0], SortBy(s[1..], le), le);
      assert |r| == |multiset(r)|;
      r
  }

  function Take<T>(s: seq<T>, k: nat): (r: seq<T>)
    ensures |r| == if k < |s| then k else |s|
    ensures r <= s
  {
    if k < |s| then s[..k] else s
  }

  /** LIMIT k after ORDER BY keeps the k smallest: what is returned is sorted,
      comes from the input, and every row left out is at least as large as
      every row returned. */
  lemma {:induction false} TakeSortedKeepsSmallest<T(!new)>(s: seq<T>, le: (T, T) -> bool, k: nat)
    requires TotalPreorder(le)
    ensures var r := Take(SortBy(s, le), k);
      && |r| == (if k < |s| then k else |s|)
      && Sorted(r, le)
      && multiset(r) <= multiset(s)
      && forall x, y :: x in multiset(r) && y in multiset(s) - multiset(r) ==> le(x, y)
  {
    var sorted := SortBy(s, le);
    PrefixOfSorted(sorted, le, k);
  }

  /** The first k of a sorted sequence: sorted, drawn from it, and no larger
      than anything after them. */
  lemma PrefixOfSorted<T>(sorted: seq<T>, le: (T, T) -> bool, k: nat)
    requires Sorted(sorted, le)
    ensures var r := Take(sorted, k);
      && Sorted(r, le)
      && multiset(r) <= multiset(sorted)
      && forall x, y :: x in multiset(r) && y in multiset(sorted) - multiset(r) ==> le(x, y)
  {
    var r := Take(sorted, k);
    var n := |r|;
    assert sorted == r + sorted[n..];
    assert multiset(sorted) == multiset(r) + multiset(sorted[n..]);
    SortedSplit(sorted, le, n);
    assert r == sorted[..n];
    assert multiset(sorted) - multiset(r) == multiset(sorted[n..]);
  }

  /** In a sorted sequence, everything before a cut sorts before everything
      after it. */
  lemma SortedSplit<T>(sorted: seq<T>, le: (T, T) -> bool, n: nat)
    requires Sorted(sorted, le) && n <= |sorted|
    ensures forall x, y :: x in multiset(sorted[..n]) && y in multiset(sorted[n..]) ==> le(x, y)
  {
    forall x, y | x in multiset(sorted[..n]) && y in multiset(sorted[n..])
      ensures le(x, y)
    {
      var i :| 0 <= i < n && sorted[..n][i] == x;
      var j :| 0 <= j < |sorted| - n && sorted[n..][j] == y;
      assert sorted[i] == x && sorted[n + j] == y;
    }
  }

  /** Sorting only reorders: an element is in the result exactly when it is
      in the input. */
  lemma SortByMembers<T(!new)>(s: seq<T>, le: (T, T) -> bool, x: T)
    requires TotalPreorder(le)
    ensures x in SortBy(s, le) <==> x in s
  {
    var r := SortBy(s, le);
    assert x in r <==> x in multiset(r);
    assert x in s <==> x in multiset(s);
  }

  /** LIMIT after ORDER BY returns only input rows. */
  lemma TakeSortedMembers<T(!new)>(s: seq<T>, le: (T, T) -> bool, k: nat)
    requires TotalPreorder(le)
    ensures forall x :: x in Take(SortBy(s, le), k) ==> x in s
  {
    var r := Take(SortBy(s, le), k);
    forall x | x in r ensures x in s {
      SortByMembers(s, le, x);
    }
  }

  /** A row that LIMIT after ORDER BY drops was dropped only because the
      result is full, and it sorts after every row returned. */
  lemma TakeSortedLeftOut<T(!new)>(s: seq<T>, le: (T, T) -> bool, k: nat)
    requires TotalPreorder(le)
    ensures var r := Take(SortBy(s, le), k);
      forall x :: x in s && x !in r ==> |r| == k && forall y :: y in r ==> le(y, x)
  {
    TakeSortedKeepsSmallest(s, le, k);
    var r := Take(SortBy(s, le), k);
    assert r == if k < |s| then SortBy(s, le)[..k] else SortBy(s, le);
    forall x | x in s && x !in r
      ensures |r| == k && forall y :: y in r ==> le(y, x)
    {
      SortByMembers(s, le, x);
      assert x in multiset(s) - multiset(r) by {
        assert x in multiset(s);
        assert multiset(r)[x] == 0;
      }
      forall y | y in r ensures le(y, x) {
        assert y in multiset(r);
      }
    }
  }
}
