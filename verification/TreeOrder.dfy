/**
 What the tree view shows of a sample without PPID cycles: the first lines of the depth-first preorder
 of the forest, in which every process stands exactly once.
 */
module TreeOrder {
  import opened Sample
  import opened ProcessTree
  import opened Buffers
  import opened TreeDraw

  /**
   No PPID cycle: the processes can be given levels such that each is above its parent.
   */
  ghost predicate Acyclic(rows: seq<Info>, level: map<int, nat>, top: nat) {
    && Sorted(rows)
    && (forall i :: 0 <= i < |rows| ==> rows[i].pid in level && level[rows[i].pid] <= top)
    && (forall i :: 0 <= i < |rows| && Has(rows, rows[i].ppid) ==>
          rows[i].ppid in level && level[rows[i].ppid] < level[rows[i].pid])
  }

  /** Siblings (or roots): processes of the sample, all on levels above the floor. */
  ghost predicate Above(rows: seq<Info>, level: map<int, nat>, top: nat, kids: seq<int>, floor: int) {
    && Acyclic(rows, level, top) && -1 <= floor <= top
    && forall i :: 0 <= i < |kids| ==> Has(rows, kids[i]) && kids[i] in level && floor < level[kids[i]] <= top
  }

  lemma KidsAreAbove(rows: seq<Info>, level: map<int, nat>, top: nat, pid: int)
    requires Acyclic(rows, level, top) && Has(rows, pid)
    ensures pid in level && level[pid] <= top && Above(rows, level, top, KidsOf(rows, pid), level[pid])
  {
    KidsAreTheChildren(rows, pid);
    var kids := KidsOf(rows, pid);
    forall i | 0 <= i < |kids|
      ensures Has(rows, kids[i]) && kids[i] in level && level[pid] < level[kids[i]] <= top
    {
      assert kids[i] in kids;
    }
  }

  /** The whole depth-first preorder, with no cut-off. */
  ghost function Preorder(rows: seq<Info>, level: map<int, nat>, top: nat, pid: int, depth: nat, last: bool, prefix: seq<int>): seq<Line>
    requires Acyclic(rows, level, top) && Has(rows, pid)
    decreases if pid in level then top - level[pid] else -1, 1, 0
  {
    KidsAreAbove(rows, level, top, pid);
    [Line(prefix + Glyph(depth, last), pid)]
    + PreorderAll(rows, level, top, KidsOf(rows, pid), 0, level[pid], depth + 1, ChildPrefix(depth, last, prefix))
  }

  ghost function PreorderAll(rows: seq<Info>, level: map<int, nat>, top: nat, kids: seq<int>, i: nat, floor: int, depth: nat, prefix: seq<int>): seq<Line>
    requires Above(rows, level, top, kids, floor) && i <= |kids|
    decreases top - floor, 0, |kids| - i
  {
    if i == |kids| then []
    else
      Preorder(rows, level, top, kids[i], depth, i + 1 == |kids|, prefix)
      + PreorderAll(rows, level, top, kids, i + 1, floor, depth, prefix)
  }

  lemma CutConcat<T>(a: seq<T>, b: seq<T>, n: nat)
    ensures |Cut(a, n)| <= n
    ensures Cut(a + b, n) == Cut(a, n) + Cut(b, n - |Cut(a, n)|)
  {
  }

  lemma CutAfterFirst<T>(a: T, walked: seq<T>, all: seq<T>, lines: seq<T>, whole: seq<T>, room: nat)
    requires whole == [a] + all
    requires if room == 0 then lines == [] else lines == [a] + walked && walked == Cut(all, room - 1)
    ensures lines == Cut(whole, room)
  {
  }

  /** The walk with a cut-off is the preorder, cut off. */
  lemma {:induction false} WalkIsPreorder(rows: seq<Info>, level: map<int, nat>, top: nat, pid: int, depth: nat, last: bool, prefix: seq<int>, room: nat)
    requires Acyclic(rows, level, top) && Has(rows, pid)
    ensures Walk(rows, pid, depth, last, prefix, room) == Cut(Preorder(rows, level, top, pid, depth, last, prefix), room)
    decreases if pid in level then top - level[pid] else -1, 1, 0
  {
    KidsAreAbove(rows, level, top, pid);
    var kids, under := KidsOf(rows, pid), ChildPrefix(depth, last, prefix);
    var all := PreorderAll(rows, level, top, kids, 0, level[pid], depth + 1, under);
    var lines, preorder := Walk(rows, pid, depth, last, prefix, room), Preorder(rows, level, top, pid, depth, last, prefix);
    var walked := WalkParts(rows, pid, depth, last, prefix, room, lines);
    if room > 0 {
      WalkAllIsPreorder(rows, level, top, kids, 0, level[pid], depth + 1, under, room - 1);
    }
    PreorderStep(rows, level, top, pid, depth, last, prefix);
    CutAfterFirst(Line(prefix + Glyph(depth, last), pid), walked, all, lines, preorder, room);
  }

  lemma {:induction false} WalkAllIsPreorder(rows: seq<Info>, level: map<int, nat>, top: nat, kids: seq<int>, i: nat, floor: int, depth: nat, prefix: seq<int>, room: nat)
    requires Above(rows, level, top, kids, floor) && i <= |kids|
    ensures WalkAll(rows, kids, i, depth, prefix, room) == Cut(PreorderAll(rows, level, top, kids, i, floor, depth, prefix), room)
    decreases top - floor, 0, |kids| - i
  {
    if i < |kids| {
      var last := i + 1 == |kids|;
      var first := Preorder(rows, level, top, kids[i], depth, last, prefix);
      var rest := PreorderAll(rows, level, top, kids, i + 1, floor, depth, prefix);
      WalkIsPreorder(rows, level, top, kids[i], depth, last, prefix, room);
      WalkAllIsPreorder(rows, level, top, kids, i + 1, floor, depth, prefix, room - |Cut(first, room)|);
      CutConcat(first, rest, room);
      WalkAllStep(rows, kids, i, depth, prefix, room);
      PreorderAllStep(rows, level, top, kids, i, floor, depth, prefix);
    }
  }

  lemma PreorderStep(rows: seq<Info>, level: map<int, nat>, top: nat, pid: int, depth: nat, last: bool, prefix: seq<int>)
    requires Acyclic(rows, level, top) && Has(rows, pid) && pid in level && level[pid] <= top
    requires Above(rows, level, top, KidsOf(rows, pid), level[pid])
    ensures Preorder(rows, level, top, pid, depth, last, prefix)
         == [Line(prefix + Glyph(depth, last), pid)]
            + PreorderAll(rows, level, top, KidsOf(rows, pid), 0, level[pid], depth + 1, ChildPrefix(depth, last, prefix))
  {
  }

  lemma PreorderAllStep(rows: seq<Info>, level: map<int, nat>, top: nat, kids: seq<int>, i: nat, floor: int, depth: nat, prefix: seq<int>)
    requires Above(rows, level, top, kids, floor) && i < |kids|
    ensures PreorderAll(rows, level, top, kids, i, floor, depth, prefix)
         == Preorder(rows, level, top, kids[i], depth, i + 1 == |kids|, prefix)
            + PreorderAll(rows, level, top, kids, i + 1, floor, depth, prefix)
  {
  }

  lemma RootsAreAbove(rows: seq<Info>, level: map<int, nat>, top: nat)
    requires Acyclic(rows, level, top)
    ensures Above(rows, level, top, Roots(rows), -1)
  {
    RootsAreExact(rows);
    forall i | 0 <= i < |Roots(rows)|
      ensures Has(rows, Roots(rows)[i])
    {
      assert Roots(rows)[i] in Roots(rows);
    }
  }

  /** What the view shows of a sample when there is room for so many rows. */
  ghost function OnScreen(rows: seq<Info>, room: nat): seq<Line> { WalkAll(rows, Roots(rows), 0, 0, [], room) }

  ghost function Forest(rows: seq<Info>, level: map<int, nat>, top: nat): seq<Line>
    requires Acyclic(rows, level, top)
  {
    RootsAreAbove(rows, level, top);
    PreorderAll(rows, level, top, Roots(rows), 0, -1, 0, [])
  }

  /** On an acyclic sample the rows drawn are exactly the first (termHeight - 10) - 2 of the preorder of the forest. */
  lemma DrawnIsPreorder(rows: seq<Info>, level: map<int, nat>, top: nat, termHeight: int)
    requires Acyclic(rows, level, top)
    ensures WalkAll(rows, Roots(rows), 0, 0, [], Room(2, termHeight - 10))
         == Cut(Forest(rows, level, top), if termHeight > 12 then termHeight - 12 else 0)
  {
    RootsAreAbove(rows, level, top);
    WalkAllIsPreorder(rows, level, top, Roots(rows), 0, -1, 0, [], Room(2, termHeight - 10));
  }

  // ---- Every process exactly once ----

  ghost function ParentOf(rows: seq<Info>, pid: int): int
    requires Has(rows, pid)
  {
    rows[Position(rows, pid)].ppid
  }

  lemma KidIsChild(rows: seq<Info>, p: int, k: nat)
    requires Sorted(rows) && k < |KidsOf(rows, p)|
    ensures Has(rows, KidsOf(rows, p)[k]) && ParentOf(rows, KidsOf(rows, p)[k]) == p
  {
    var kid := KidsOf(rows, p)[k];
    KidsAreTheChildren(rows, p);
    assert kid in KidsOf(rows, p);
    var j :| 0 <= j < |rows| && rows[j].pid == kid && rows[j].ppid == p;
    PositionIs(rows, j);
  }

  /** `q` is `p` or a descendant of it. */
  ghost predicate Under(rows: seq<Info>, level: map<int, nat>, top: nat, p: int, q: int)
    requires Acyclic(rows, level, top) && Has(rows, q)
    decreases if q in level then level[q] else 0
  {
    q == p || (Has(rows, ParentOf(rows, q)) && Under(rows, level, top, p, ParentOf(rows, q)))
  }

  function Times(lines: seq<Line>, q: int): nat {
    if lines == [] then 0 else Times(lines[..|lines| - 1], q) + if lines[|lines| - 1].pid == q then 1 else 0
  }

  lemma {:induction false} TimesConcat(a: seq<Line>, b: seq<Line>, q: int)
    ensures Times(a + b, q) == Times(a, q) + Times(b, q)
  {
    if b == [] {
      assert a + b == a;
    } else {
      assert (a + b)[..|a + b| - 1] == a + b[..|b| - 1];
      TimesConcat(a, b[..|b| - 1], q);
    }
  }

  /** How many of the siblings from number i on have `q` under them. */
  ghost function UnderCount(rows: seq<Info>, level: map<int, nat>, top: nat, kids: seq<int>, i: nat, q: int): nat
    requires Acyclic(rows, level, top) && Has(rows, q) && i <= |kids|
    decreases |kids| - i
  {
    if i == |kids| then 0
    else UnderCount(rows, level, top, kids, i + 1, q) + if Under(rows, level, top, kids[i], q) then 1 else 0
  }

  lemma {:induction false} UnderIsHigher(rows: seq<Info>, level: map<int, nat>, top: nat, p: int, q: int)
    requires Acyclic(rows, level, top) && Has(rows, p) && Has(rows, q) && Under(rows, level, top, p, q)
    ensures p in level && q in level && level[p] <= level[q]
    decreases if q in level then level[q] else 0
  {
    if q != p {
      UnderIsHigher(rows, level, top, p, ParentOf(rows, q));
    }
  }

  /** Two ancestors of one process are on one line of descent. */
  lemma {:induction false} AncestorsCompare(rows: seq<Info>, level: map<int, nat>, top: nat, a: int, b: int, q: int)
    requires Acyclic(rows, level, top) && Has(rows, a) && Has(rows, b) && Has(rows, q)
    requires Under(rows, level, top, a, q) && Under(rows, level, top, b, q)
    ensures Under(rows, level, top, a, b) || Under(rows, level, top, b, a)
    decreases if q in level then level[q] else 0
  {
    if q != a && q != b {
      AncestorsCompare(rows, level, top, a, b, ParentOf(rows, q));
    }
  }

  /** Nobody is under two siblings: neither has an ancestor above the floor but itself. */
  ghost predicate Siblings(rows: seq<Info>, level: map<int, nat>, top: nat, kids: seq<int>, floor: int) {
    && Above(rows, level, top, kids, floor) && Distinct(kids)
    && forall i :: 0 <= i < |kids| && Has(rows, ParentOf(rows, kids[i])) ==>
         ParentOf(rows, kids[i]) in level && level[ParentOf(rows, kids[i])] <= floor
  }

  lemma NotUnderSibling(rows: seq<Info>, level: map<int, nat>, top: nat, kids: seq<int>, floor: int, i: nat, j: nat)
    requires Siblings(rows, level, top, kids, floor) && i < |kids| && j < |kids| && i != j
    ensures !Under(rows, level, top, kids[i], kids[j])
  {
    if Under(rows, level, top, kids[i], kids[j]) {
      assert kids[i] != kids[j];
      UnderIsHigher(rows, level, top, kids[i], ParentOf(rows, kids[j]));
    }
  }

  lemma {:induction false} UnderAtMostOne(rows: seq<Info>, level: map<int, nat>, top: nat, kids: seq<int>, floor: int, i: nat, k: int, q: int)
    requires Siblings(rows, level, top, kids, floor) && Has(rows, q) && i <= |kids| && -1 <= k < |kids|
    requires k >= 0 ==> Under(rows, level, top, kids[k], q)
    requires k < 0 ==> forall j :: 0 <= j < |kids| ==> !Under(rows, level, top, kids[j], q)
    ensures UnderCount(rows, level, top, kids, i, q) == if i <= k then 1 else 0
    decreases |kids| - i
  {
    if i < |kids| {
      UnderAtMostOne(rows, level, top, kids, floor, i + 1, k, q);
      if k >= 0 && i != k && Under(rows, level, top, kids[i], q) {
        AncestorsCompare(rows, level, top, kids[i], kids[k], q);
        NotUnderSibling(rows, level, top, kids, floor, i, k);
        NotUnderSibling(rows, level, top, kids, floor, k, i);
      }
    }
  }

  lemma KidsAreSiblings(rows: seq<Info>, level: map<int, nat>, top: nat, pid: int)
    requires Acyclic(rows, level, top) && Has(rows, pid)
    ensures pid in level && Siblings(rows, level, top, KidsOf(rows, pid), level[pid])
    ensures forall i :: 0 <= i < |KidsOf(rows, pid)| ==>
      Has(rows, KidsOf(rows, pid)[i]) && ParentOf(rows, KidsOf(rows, pid)[i]) == pid
  {
    KidsAreAbove(rows, level, top, pid);
    KidsAreTheChildren(rows, pid);
    var kids := KidsOf(rows, pid);
    forall i | 0 <= i < |kids|
      ensures ParentOf(rows, kids[i]) == pid
    {
      assert kids[i] in kids;
      var j :| 0 <= j < |rows| && rows[j].pid == kids[i] && rows[j].ppid == pid;
      PositionIs(rows, j);
    }
  }

  /** Between a process and its descendant stands one of its children. */
  lemma {:induction false} ChildOnTheWay(rows: seq<Info>, level: map<int, nat>, top: nat, p: int, q: int) returns (k: nat)
    requires Acyclic(rows, level, top) && Has(rows, p) && Has(rows, q) && q != p && Under(rows, level, top, p, q)
    ensures k < |KidsOf(rows, p)| && Under(rows, level, top, KidsOf(rows, p)[k], q)
    decreases if q in level then level[q] else 0
  {
    if ParentOf(rows, q) == p {
      KidsAreTheChildren(rows, p);
      var i := Position(rows, q);
      assert rows[i].pid == q && rows[i].ppid == p;
      assert q in KidsOf(rows, p);
      k :| 0 <= k < |KidsOf(rows, p)| && KidsOf(rows, p)[k] == q;
    } else {
      k := ChildOnTheWay(rows, level, top, p, ParentOf(rows, q));
    }
  }

  /** Whoever is under a child is under its parent. */
  lemma {:induction false} UnderParent(rows: seq<Info>, level: map<int, nat>, top: nat, k: int, q: int)
    requires Acyclic(rows, level, top) && Has(rows, k) && Has(rows, q) && Under(rows, level, top, k, q)
    requires Has(rows, ParentOf(rows, k))
    ensures Under(rows, level, top, ParentOf(rows, k), q)
    decreases if q in level then level[q] else 0
  {
    if q != k {
      UnderParent(rows, level, top, k, ParentOf(rows, q));
    }
  }

  /** How many children of p have q under them: one if q is a proper descendant of p, none otherwise. */
  lemma KidsCount(rows: seq<Info>, level: map<int, nat>, top: nat, p: int, q: int)
    requires Acyclic(rows, level, top) && Has(rows, p) && Has(rows, q)
    ensures UnderCount(rows, level, top, KidsOf(rows, p), 0, q) == if q != p && Under(rows, level, top, p, q) then 1 else 0
  {
    var kids := KidsOf(rows, p);
    KidsAreSiblings(rows, level, top, p);
    if q != p && Under(rows, level, top, p, q) {
      var k := ChildOnTheWay(rows, level, top, p, q);
      UnderAtMostOne(rows, level, top, kids, level[p], 0, k, q);
    } else {
      forall j | 0 <= j < |kids|
        ensures !Under(rows, level, top, kids[j], q)
      {
        if Under(rows, level, top, kids[j], q) {
          UnderParent(rows, level, top, kids[j], q);
          UnderIsHigher(rows, level, top, kids[j], q);
        }
      }
      UnderAtMostOne(rows, level, top, kids, level[p], 0, -1, q);
    }
  }

  /** The walk from p shows each of its descendants, and p itself, once, and nobody else of the sample. */
  lemma {:induction false} PreorderShowsUnder(rows: seq<Info>, level: map<int, nat>, top: nat, p: int, depth: nat, last: bool, prefix: seq<int>, q: int)
    requires Acyclic(rows, level, top) && Has(rows, p) && Has(rows, q)
    ensures Times(Preorder(rows, level, top, p, depth, last, prefix), q) == if Under(rows, level, top, p, q) then 1 else 0
    decreases if p in level then top - level[p] else -1, 1, 0
  {
    KidsAreAbove(rows, level, top, p);
    var kids := KidsOf(rows, p);
    var line := [Line(prefix + Glyph(depth, last), p)];
    var rest := PreorderAll(rows, level, top, kids, 0, level[p], depth + 1, ChildPrefix(depth, last, prefix));
    PreorderAllShowsUnder(rows, level, top, kids, 0, level[p], depth + 1, ChildPrefix(depth, last, prefix), q);
    TimesConcat(line, rest, q);
    assert line[..0] == [];
    KidsCount(rows, level, top, p, q);
  }

  lemma {:induction false} PreorderAllShowsUnder(rows: seq<Info>, level: map<int, nat>, top: nat, kids: seq<int>, i: nat, floor: int, depth: nat, prefix: seq<int>, q: int)
    requires Above(rows, level, top, kids, floor) && i <= |kids| && Has(rows, q)
    ensures Times(PreorderAll(rows, level, top, kids, i, floor, depth, prefix), q) == UnderCount(rows, level, top, kids, i, q)
    decreases top - floor, 0, |kids| - i
  {
    if i < |kids| {
      PreorderShowsUnder(rows, level, top, kids[i], depth, i + 1 == |kids|, prefix, q);
      PreorderAllShowsUnder(rows, level, top, kids, i + 1, floor, depth, prefix, q);
      TimesConcat(Preorder(rows, level, top, kids[i], depth, i + 1 == |kids|, prefix),
                  PreorderAll(rows, level, top, kids, i + 1, floor, depth, prefix), q);
    }
  }

  /**
   Nobody names PPID 0 while a process 0 is in the sample. Otherwise that process would be a root, by its
   PPID, and a child as well.
   */
  ghost predicate NoChildOfZero(rows: seq<Info>) {
    Has(rows, 0) ==> forall i :: 0 <= i < |rows| ==> rows[i].ppid != 0
  }

  lemma TopIsRoot(rows: seq<Info>, q: int)
    requires Sorted(rows) && Has(rows, q) && !Has(rows, ParentOf(rows, q))
    ensures q in Roots(rows)
  {
    RootsAreExact(rows);
    assert rows[Position(rows, q)].pid == q;
  }

  /** On an acyclic sample the roots are then the processes whose parent is absent. */
  lemma RootsAreSiblings(rows: seq<Info>, level: map<int, nat>, top: nat)
    requires Acyclic(rows, level, top) && NoChildOfZero(rows)
    ensures Siblings(rows, level, top, Roots(rows), -1)
  {
    RootsAreExact(rows);
    RootsAreAbove(rows, level, top);
    var roots := Roots(rows);
    forall i | 0 <= i < |roots|
      ensures !Has(rows, ParentOf(rows, roots[i]))
    {
      assert roots[i] in roots;
      var j :| 0 <= j < |rows| && rows[j].pid == roots[i] && (!Has(rows, rows[j].ppid) || TopByItself(rows[j]));
      PositionIs(rows, j);
    }
  }

  lemma {:induction false} SomeRootAbove(rows: seq<Info>, level: map<int, nat>, top: nat, q: int) returns (k: nat)
    requires Acyclic(rows, level, top) && Has(rows, q)
    ensures k < |Roots(rows)| && Under(rows, level, top, Roots(rows)[k], q)
    decreases if q in level then level[q] else 0
  {
    if Has(rows, ParentOf(rows, q)) {
      k := SomeRootAbove(rows, level, top, ParentOf(rows, q));
    } else {
      TopIsRoot(rows, q);
      k :| 0 <= k < |Roots(rows)| && Roots(rows)[k] == q;
    }
  }

  lemma {:induction false} OnlyTheSample(rows: seq<Info>, level: map<int, nat>, top: nat, p: int, depth: nat, last: bool, prefix: seq<int>)
    requires Acyclic(rows, level, top) && Has(rows, p)
    ensures forall a :: a in Preorder(rows, level, top, p, depth, last, prefix) ==> Has(rows, a.pid)
    decreases if p in level then top - level[p] else -1, 1, 0
  {
    KidsAreAbove(rows, level, top, p);
    AllOnlyTheSample(rows, level, top, KidsOf(rows, p), 0, level[p], depth + 1, ChildPrefix(depth, last, prefix));
  }

  lemma {:induction false} AllOnlyTheSample(rows: seq<Info>, level: map<int, nat>, top: nat, kids: seq<int>, i: nat, floor: int, depth: nat, prefix: seq<int>)
    requires Above(rows, level, top, kids, floor) && i <= |kids|
    ensures forall a :: a in PreorderAll(rows, level, top, kids, i, floor, depth, prefix) ==> Has(rows, a.pid)
    decreases top - floor, 0, |kids| - i
  {
    if i < |kids| {
      OnlyTheSample(rows, level, top, kids[i], depth, i + 1 == |kids|, prefix);
      AllOnlyTheSample(rows, level, top, kids, i + 1, floor, depth, prefix);
    }
  }

  lemma {:induction false} DistinctLines(lines: seq<Line>)
    requires forall q :: Times(lines, q) <= 1
    ensures |set i | 0 <= i < |lines| :: lines[i].pid| == |lines|
  {
    if lines != [] {
      var before, last := lines[..|lines| - 1], lines[|lines| - 1];
      forall q
        ensures Times(before, q) <= 1
      {
        assert Times(lines, q) <= 1;
      }
      DistinctLines(before);
      var pids := set i | 0 <= i < |before| :: before[i].pid;
      assert last.pid !in pids by {
        assert Times(lines, last.pid) <= 1;
        if last.pid in pids {
          var i :| 0 <= i < |before| && before[i].pid == last.pid;
          Occurs(before, i);
        }
      }
      assert (set i | 0 <= i < |lines| :: lines[i].pid) == pids + {last.pid};
    }
  }

  lemma {:induction false} Occurs(lines: seq<Line>, i: nat)
    requires i < |lines|
    ensures Times(lines, lines[i].pid) >= 1
  {
    if i < |lines| - 1 {
      Occurs(lines[..|lines| - 1], i);
    }
  }

  lemma {:induction false} Absent(lines: seq<Line>, q: int)
    requires forall a :: a in lines ==> a.pid != q
    ensures Times(lines, q) == 0
  {
    if lines != [] {
      Absent(lines[..|lines| - 1], q);
    }
  }

  lemma {:induction false} DistinctRows(rows: seq<Info>)
    requires Sorted(rows)
    ensures |PidSet(rows)| == |rows|
  {
    if rows != [] {
      var before, last := rows[..|rows| - 1], rows[|rows| - 1];
      DistinctRows(before);
      assert PidSet(rows) == PidSet(before) + {last.pid};
    }
  }

  /**
   On an acyclic sample without a child of process 0 every process stands in the preorder of the forest exactly
   once, and nothing else does.
   */
  lemma EveryProcessOnce(rows: seq<Info>, level: map<int, nat>, top: nat)
    requires Acyclic(rows, level, top) && NoChildOfZero(rows)
    ensures forall q :: Times(Forest(rows, level, top), q) == if Has(rows, q) then 1 else 0
    ensures |Forest(rows, level, top)| == |rows|
  {
    var forest := Forest(rows, level, top);
    RootsAreSiblings(rows, level, top);
    AllOnlyTheSample(rows, level, top, Roots(rows), 0, -1, 0, []);
    forall q
      ensures Times(forest, q) == if Has(rows, q) then 1 else 0
    {
      if Has(rows, q) {
        var k := SomeRootAbove(rows, level, top, q);
        UnderAtMostOne(rows, level, top, Roots(rows), -1, 0, k, q);
        PreorderAllShowsUnder(rows, level, top, Roots(rows), 0, -1, 0, [], q);
      } else {
        Absent(forest, q);
      }
    }
    DistinctLines(forest);
    DistinctRows(rows);
    SamePids(rows, forest);
  }

  /** So the view shows min(count, termHeight - 12) lines, of as many different processes of the sample. */
  lemma DrawnOnce(rows: seq<Info>, level: map<int, nat>, top: nat, termHeight: int)
    requires Acyclic(rows, level, top) && NoChildOfZero(rows)
    ensures var lines := WalkAll(rows, Roots(rows), 0, 0, [], Room(2, termHeight - 10));
            var room := if termHeight > 12 then termHeight - 12 else 0;
            && |lines| == (if |rows| < room then |rows| else room)
            && (forall q :: Times(lines, q) <= if Has(rows, q) then 1 else 0)
            && |set i | 0 <= i < |lines| :: lines[i].pid| == |lines|
  {
    DrawnIsPreorder(rows, level, top, termHeight);
    EveryProcessOnce(rows, level, top);
    var forest, room := Forest(rows, level, top), if termHeight > 12 then termHeight - 12 else 0;
    var lines := Cut(forest, room);
    forall q
      ensures Times(lines, q) <= Times(forest, q)
    {
      TimesCut(forest, room, q);
    }
    DistinctLines(lines);
  }

  lemma TimesCut(lines: seq<Line>, n: nat, q: int)
    ensures Times(Cut(lines, n), q) <= Times(lines, q)
  {
    if n < |lines| {
      TimesConcat(lines[..n], lines[n..], q);
      assert lines[..n] + lines[n..] == lines;
    }
  }

  lemma SamePids(rows: seq<Info>, lines: seq<Line>)
    requires forall q :: Times(lines, q) == if Has(rows, q) then 1 else 0
    ensures (set i | 0 <= i < |lines| :: lines[i].pid) == PidSet(rows)
  {
    forall q
      ensures q in (set i | 0 <= i < |lines| :: lines[i].pid) <==> q in PidSet(rows)
    {
      if i :| 0 <= i < |lines| && lines[i].pid == q {
        Occurs(lines, i);
      } else {
        Absent(lines, q);
      }
    }
  }
}
