/**
 What qsort promises: a sorted permutation, by an algorithm the C library chooses. Where the order tells
 all elements apart, the result does not depend on that choice.
 */
module Sorting {

  ghost predicate TotalPreorder<T(!new)>(le: (T, T) -> bool) {
    && (forall x, y :: le(x, y) || le(y, x))
    && (forall x, y, z :: le(x, y) && le(y, z) ==> le(x, z))
  }

  ghost predicate Rising(s: seq<int>) { forall i, j :: 0 <= i < j < |s| ==> s[i] <= s[j] }

  ghost predicate Ascending(s: seq<int>) { forall i, j :: 0 <= i < j < |s| ==> s[i] < s[j] }

  ghost predicate InOrder<T>(le: (T, T) -> bool, s: seq<T>) {
    forall i, j :: 0 <= i < j < |s| ==> le(s[i], s[j])
  }

  /** No two elements of s compare equal without being equal. */
  ghost predicate ToldApart<T(!new)>(le: (T, T) -> bool, s: seq<T>) {
    forall x, y :: x in s && y in s && le(x, y) && le(y, x) ==> x == y
  }

  ghost predicate SortOf<T>(le: (T, T) -> bool, s: seq<T>, r: seq<T>) {
    InOrder(le, r) && multiset(r) == multiset(s)
  }

  lemma SameElements<T>(a: seq<T>, b: seq<T>)
    requires multiset(a) == multiset(b)
    ensures |a| == |b| && forall x :: x in a <==> x in b
  {
    assert |multiset(a)| == |a| && |multiset(b)| == |b|;
    forall x
      ensures x in a <==> x in b
    {
      assert x in a <==> x in multiset(a);
      assert x in b <==> x in multiset(b);
    }
  }

  lemma WithoutFirst<T>(s: seq<T>)
    requires s != []
    ensures multiset(s[1..]) == multiset(s) - multiset{s[0]}
  {
    assert s == [s[0]] + s[1..];
  }

  /** One sorted permutation only: any sorting algorithm gives the same sequence. */
  lemma {:induction false} SortIsUnique<T(!new)>(le: (T, T) -> bool, a: seq<T>, b: seq<T>)
    requires ToldApart(le, a)
    requires InOrder(le, a) && InOrder(le, b) && multiset(a) == multiset(b)
    ensures a == b
  {
    SameElements(a, b);
    if a != [] {
      assert b[0] in a && a[0] in b;
      assert a[0] == b[0];
      WithoutFirst(a);
      WithoutFirst(b);
      SortIsUnique(le, a[1..], b[1..]);
    }
  }

  function Insert<T>(le: (T, T) -> bool, x: T, s: seq<T>): (r: seq<T>)
    ensures multiset(r) == multiset(s) + multiset{x} && |r| == |s| + 1
  {
    if s == [] then [x]
    else if le(x, s[0]) then [x] + s
    else
      assert s == [s[0]] + s[1..];
      [s[0]] + Insert(le, x, s[1..])
  }

  lemma {:induction false} InsertKeepsOrder<T(!new)>(le: (T, T) -> bool, x: T, s: seq<T>)
    requires TotalPreorder(le) && InOrder(le, s)
    ensures InOrder(le, Insert(le, x, s))
  {
    if s != [] && !le(x, s[0]) {
      InsertKeepsOrder(le, x, s[1..]);
      var r := Insert(le, x, s[1..]);
      forall i | 0 <= i < |r|
        ensures le(s[0], r[i])
      {
        assert r[i] in multiset(r);
        assert r[i] == x || r[i] in s[1..];
      }
    }
  }

  /** A sort to stand for qsort. */
  function Sort<T>(le: (T, T) -> bool, s: seq<T>): (r: seq<T>)
    ensures multiset(r) == multiset(s) && |r| == |s|
  {
    if s == [] then []
    else
      assert s == [s[0]] + s[1..];
      Insert(le, s[0], Sort(le, s[1..]))
  }

  lemma {:induction false} SortSorts<T(!new)>(le: (T, T) -> bool, s: seq<T>)
    requires TotalPreorder(le)
    ensures SortOf(le, s, Sort(le, s))
  {
    if s != [] {
      SortSorts(le, s[1..]);
      InsertKeepsOrder(le, s[0], Sort(le, s[1..]));
      SameElements(s, Sort(le, s));
    }
  }

  /** A sequence repeats nothing exactly if its multiset holds nothing twice. */
  lemma {:induction false} DistinctCounts<T(!new)>(s: seq<T>)
    ensures (forall x :: multiset(s)[x] <= 1) <==> forall i, j :: 0 <= i < j < |s| ==> s[i] != s[j]
  {
    if s != [] {
      var before, last := s[..|s| - 1], s[|s| - 1];
      assert s == before + [last];
      assert multiset(s) == multiset(before) + multiset{last};
      DistinctCounts(before);
      if forall x :: multiset(s)[x] <= 1 {
        forall x
          ensures multiset(before)[x] <= 1
        {
          assert multiset(s)[x] <= 1;
        }
        assert last !in before by {
          assert multiset(s)[last] <= 1;
        }
        forall i, j | 0 <= i < j < |s|
          ensures s[i] != s[j]
        {
          if j == |s| - 1 {
            assert s[i] == before[i];
          }
        }
      }
      if forall i, j :: 0 <= i < j < |s| ==> s[i] != s[j] {
        assert last !in before;
        forall x
          ensures multiset(s)[x] <= 1
        {
          assert multiset(before)[x] <= 1;
        }
      }
    }
  }
}
