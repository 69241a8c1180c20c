/**
 Lists laid out one after the other in one flat sequence, each in a slice of its own: where the slices begin,
 and how they are filled one element at a time in any order of the lists.
 */
module Slices {

  /** Where the slice of list number k begins. */
  function Offset(lists: seq<seq<int>>, k: nat): nat
    requires k <= |lists|
  {
    if k == 0 then 0 else Offset(lists, k - 1) + |lists[k - 1]|
  }

  /** The first n lists, one after the other. */
  function Flat(lists: seq<seq<int>>, n: nat): (r: seq<int>)
    requires n <= |lists|
    ensures |r| == Offset(lists, n)
  {
    if n == 0 then [] else Flat(lists, n - 1) + lists[n - 1]
  }

  function Starts(lists: seq<seq<int>>): seq<nat> {
    seq(|lists|, k requires 0 <= k < |lists| => Offset(lists, k))
  }

  function Counts(lists: seq<seq<int>>): seq<nat> {
    seq(|lists|, k requires 0 <= k < |lists| => |lists[k]|)
  }

  // ---- Slices of sequences ----

  lemma JoinSlices<T>(s: seq<T>, lo: nat, hi: nat)
    requires lo <= hi <= |s|
    ensures s[..hi] == s[..lo] + s[lo..hi]
  {
  }

  lemma ExtendSlice<T>(s: seq<T>, at: nat, n: nat, x: T)
    requires at + n < |s|
    ensures s[at + n := x][at..at + n + 1] == s[at..at + n] + [x]
  {
  }

  lemma OtherSlice<T>(s: seq<T>, lo: nat, hi: nat, w: nat, x: T)
    requires lo <= hi <= |s| && w < |s| && (w < lo || hi <= w)
    ensures s[w := x][lo..hi] == s[lo..hi]
  {
  }

  lemma PrefixSlice<T>(a: seq<T>, b: seq<T>, lo: nat, hi: nat)
    requires lo <= hi <= |a|
    ensures (a + b)[lo..hi] == a[lo..hi]
  {
  }

  // ---- The layout ----

  lemma {:induction false} OffsetsApart(lists: seq<seq<int>>, p: nat, q: nat)
    requires p < q <= |lists|
    ensures Offset(lists, p) + |lists[p]| <= Offset(lists, q)
    decreases q
  {
    if p < q - 1 {
      OffsetsApart(lists, p, q - 1);
    }
  }

  /** Each list stands in the slice that begins at its offset. */
  lemma {:induction false} FlatSlice(lists: seq<seq<int>>, k: nat, n: nat)
    requires k < n <= |lists|
    ensures Offset(lists, k) + |lists[k]| <= Offset(lists, n)
    ensures Flat(lists, n)[Offset(lists, k)..Offset(lists, k) + |lists[k]|] == lists[k]
  {
    OffsetsApart(lists, k, n);
    if k < n - 1 {
      FlatSlice(lists, k, n - 1);
      OffsetsApart(lists, k, n - 1);
      PrefixSlice(Flat(lists, n - 1), lists[n - 1], Offset(lists, k), Offset(lists, k) + |lists[k]|);
    }
  }

  ghost predicate InSlice(lists: seq<seq<int>>, j: nat, k: nat)
    requires k < |lists|
  {
    Offset(lists, k) <= j < Offset(lists, k) + |lists[k]|
  }

  lemma OneSlice(lists: seq<seq<int>>, j: nat, k: nat, m: nat)
    requires k < |lists| && m < |lists| && InSlice(lists, j, k) && InSlice(lists, j, m)
    ensures m == k
  {
    if m < k {
      OffsetsApart(lists, m, k);
    } else if k < m {
      OffsetsApart(lists, k, m);
    }
  }

  /** The slices tile the flat sequence: every place is in exactly one of them. */
  lemma {:induction false} SlicesTile(lists: seq<seq<int>>, j: nat, n: nat) returns (k: nat)
    requires n <= |lists| && j < Offset(lists, n)
    ensures k < n && InSlice(lists, j, k)
    ensures forall m :: 0 <= m < |lists| && InSlice(lists, j, m) ==> m == k
  {
    if j < Offset(lists, n - 1) {
      k := SlicesTile(lists, j, n - 1);
    } else {
      k := n - 1;
      forall m | 0 <= m < |lists| && InSlice(lists, j, m)
        ensures m == k
      {
        OneSlice(lists, j, k, m);
      }
    }
  }

  // ---- Filling in ----

  /** The beginning of list number k that is there already is at the beginning of its slice. */
  ghost predicate Placed(flat: seq<int>, lists: seq<seq<int>>, sofar: seq<seq<int>>, k: nat)
    requires k < |lists| == |sofar|
  {
    && sofar[k] <= lists[k]
    && Offset(lists, k) + |sofar[k]| <= |flat|
    && flat[Offset(lists, k)..Offset(lists, k) + |sofar[k]|] == sofar[k]
  }

  ghost predicate AllPlaced(flat: seq<int>, lists: seq<seq<int>>, sofar: seq<seq<int>>) {
    && |flat| == Offset(lists, |lists|) && |sofar| == |lists|
    && forall k :: 0 <= k < |lists| ==> Placed(flat, lists, sofar, k)
  }

  /** The next free place of a slice is inside that slice, and so inside the whole. */
  lemma NextPlace(lists: seq<seq<int>>, p: nat, done: seq<int>, x: int)
    requires p < |lists| && done + [x] <= lists[p]
    ensures |done| < |lists[p]|
    ensures Offset(lists, p) + |lists[p]| <= Offset(lists, |lists|)
  {
    OffsetsApart(lists, p, |lists|);
  }

  /** Writing at the next place of slice p extends it and leaves the others alone. */
  lemma PlaceOne(flat: seq<int>, lists: seq<seq<int>>, sofar: seq<seq<int>>, p: nat, x: int)
    requires AllPlaced(flat, lists, sofar) && p < |lists| && sofar[p] + [x] <= lists[p]
    ensures Offset(lists, p) + |sofar[p]| < |flat|
    ensures AllPlaced(flat[Offset(lists, p) + |sofar[p]| := x], lists, sofar[p := sofar[p] + [x]])
  {
    var w, more := Offset(lists, p) + |sofar[p]|, sofar[p := sofar[p] + [x]];
    NextPlace(lists, p, sofar[p], x);
    var filled := flat[w := x];
    forall k | 0 <= k < |lists|
      ensures Placed(filled, lists, more, k)
    {
      assert Placed(flat, lists, sofar, k);
      PlaceBeside(flat, lists, sofar, p, x, k, w);
    }
  }

  lemma PlaceBeside(flat: seq<int>, lists: seq<seq<int>>, sofar: seq<seq<int>>, p: nat, x: int, k: nat, w: nat)
    requires p < |lists| == |sofar| && k < |lists| && Placed(flat, lists, sofar, k)
    requires sofar[p] + [x] <= lists[p] && w == Offset(lists, p) + |sofar[p]| < |flat|
    ensures Placed(flat[w := x], lists, sofar[p := sofar[p] + [x]], k)
  {
    if k == p {
      ExtendSlice(flat, Offset(lists, p), |sofar[p]|, x);
    } else {
      NotInOther(lists, sofar, p, k);
      OtherSlice(flat, Offset(lists, k), Offset(lists, k) + |sofar[k]|, w, x);
    }
  }

  lemma NotInOther(lists: seq<seq<int>>, sofar: seq<seq<int>>, p: nat, k: nat)
    requires p < |lists| == |sofar| && k < |lists| && p != k && |sofar[p]| < |lists[p]| && sofar[k] <= lists[k]
    ensures var w := Offset(lists, p) + |sofar[p]|;
            w < Offset(lists, k) || Offset(lists, k) + |sofar[k]| <= w
  {
    if k < p {
      OffsetsApart(lists, k, p);
    } else {
      OffsetsApart(lists, p, k);
    }
  }

  /** With everything in place the flat sequence is all lists, one after the other. */
  lemma {:induction false} PlacedIsFlat(flat: seq<int>, lists: seq<seq<int>>, n: nat)
    requires n <= |lists| && AllPlaced(flat, lists, lists)
    ensures Offset(lists, n) <= |flat| && flat[..Offset(lists, n)] == Flat(lists, n)
  {
    if n > 0 {
      PlacedIsFlat(flat, lists, n - 1);
      assert Placed(flat, lists, lists, n - 1);
      JoinSlices(flat, Offset(lists, n - 1), Offset(lists, n));
    }
  }

  lemma NothingPlaced(flat: seq<int>, lists: seq<seq<int>>, sofar: seq<seq<int>>)
    requires |flat| == Offset(lists, |lists|) && |sofar| == |lists| && forall k :: 0 <= k < |sofar| ==> sofar[k] == []
    ensures AllPlaced(flat, lists, sofar)
  {
    forall k | 0 <= k < |lists|
      ensures Placed(flat, lists, sofar, k)
    {
      OffsetsApart(lists, k, |lists|);
    }
  }

  lemma CountsUpdate(lists: seq<seq<int>>, p: nat, x: int)
    requires p < |lists|
    ensures Counts(lists[p := lists[p] + [x]]) == Counts(lists)[p := Counts(lists)[p] + 1]
  {
  }
}
