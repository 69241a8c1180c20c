/** Sums over sequences, used to count the threads that stand at a given program point. */
module Tally {

  function Total<T>(f: T -> int, s: seq<T>): int {
    if s == [] then 0 else f(s[0]) + Total(f, s[1..])
  }

  lemma {:induction false} TotalUpdate<T>(f: T -> int, s: seq<T>, i: nat, x: T)
    requires i < |s|
    ensures Total(f, s[i := x]) == Total(f, s) - f(s[i]) + f(x)
  {
    if i == 0 {
      assert s[i := x][1..] == s[1..];
    } else {
      assert s[i := x][1..] == s[1..][i - 1 := x];
      TotalUpdate(f, s[1..], i - 1, x);
    }
  }

  lemma {:induction false} TotalUniform<T>(f: T -> int, s: seq<T>, v: int)
    requires forall i :: 0 <= i < |s| ==> f(s[i]) == v
    ensures Total(f, s) == |s| * v
  {
    if s != [] {
      TotalUniform(f, s[1..], v);
    }
  }

  /** A sum of values that are all at most `v` reaches `|s| * v` only if each is `v`. */
  lemma {:induction false} TotalAtMost<T>(f: T -> int, s: seq<T>, v: int)
    requires forall i :: 0 <= i < |s| ==> f(s[i]) <= v
    ensures Total(f, s) <= |s| * v
    ensures Total(f, s) == |s| * v ==> forall i :: 0 <= i < |s| ==> f(s[i]) == v
  {
    if s != [] {
      TotalAtMost(f, s[1..], v);
      assert forall i :: 1 <= i < |s| ==> s[i] == s[1..][i - 1];
    }
  }

  lemma {:induction false} TotalNonNegative<T>(f: T -> int, s: seq<T>)
    requires forall i :: 0 <= i < |s| ==> f(s[i]) >= 0
    ensures Total(f, s) >= 0
    ensures forall i :: 0 <= i < |s| ==> f(s[i]) <= Total(f, s)
  {
    if s != [] {
      TotalNonNegative(f, s[1..]);
      assert forall i :: 1 <= i < |s| ==> s[i] == s[1..][i - 1];
    }
  }

  lemma {:induction false} TotalSame<T>(f: T -> int, g: T -> int, s: seq<T>)
    requires forall i :: 0 <= i < |s| ==> f(s[i]) == g(s[i])
    ensures Total(f, s) == Total(g, s)
  {
    if s != [] {
      TotalSame(f, g, s[1..]);
    }
  }

  lemma {:induction false} TotalDrops<T>(f: T -> int, s: seq<T>, t: seq<T>, i: nat)
    requires |s| == |t| && i < |s| && f(t[i]) < f(s[i])
    requires forall j :: 0 <= j < |s| ==> f(t[j]) <= f(s[j])
    ensures Total(f, t) < Total(f, s)
  {
    if i == 0 {
      TotalRises(f, t[1..], s[1..]);
    } else {
      TotalDrops(f, s[1..], t[1..], i - 1);
    }
  }

  lemma {:induction false} TotalRises<T>(f: T -> int, s: seq<T>, t: seq<T>)
    requires |s| == |t|
    requires forall j :: 0 <= j < |s| ==> f(s[j]) <= f(t[j])
    ensures Total(f, s) <= Total(f, t)
  {
    if s != [] {
      TotalRises(f, s[1..], t[1..]);
    }
  }
}
