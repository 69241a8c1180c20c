/**
 Who is shown by the tree view when there are rows enough: if no root has a parent, exactly the processes whose
 chain of parents comes to an end. The others are in a cycle or below one, and are never shown.
 */
module TreeShown {
  import opened Sample
  import opened ProcessTree
  import opened TreeDraw
  import opened TreeOrder
  import opened TreeCycles

  // ---- A cycle ----

  lemma {:induction false} EndsAbove(rows: seq<Info>, p: int, q: int, m: nat, n: nat)
    requires EndsIn(rows, q, m) && Path(rows, p, q, n)
    ensures n <= m && EndsIn(rows, p, m - n)
    decreases n
  {
    if n > 0 {
      EndsAbove(rows, p, ParentOf(rows, q), m - 1, n - 1);
    }
  }

  /** Who is his own ancestor, with nobody above him who is on top by its PPID, is not shown, whatever the room. */
  lemma CycleIsNotShown(rows: seq<Info>, q: int, n: nat, room: nat)
    requires Sorted(rows) && n > 0 && Path(rows, q, q, n)
    requires forall p, m :: Path(rows, p, q, m) && Has(rows, p) ==> !TopWithParent(rows, p)
    ensures Times(OnScreen(rows, room), q) == 0
  {
    forall a | a in OnScreen(rows, room)
      ensures a.pid != q
    {
      if a.pid == q {
        var root, m := ShownHasRoot(rows, room, a);
        RootParent(rows, root);
        PathEnds(rows, root, q, m);
        EndsAbove(rows, q, q, m, n);
        EndsOnce(rows, q, m, m - n);
      }
    }
    Absent(OnScreen(rows, room), q);
  }

  /** Two processes that are each other's parent. */
  lemma TwoParentsAreNotShown(room: nat)
    ensures Times(OnScreen([Bare(2, 3), Bare(3, 2)], room), 2) == 0
  {
    var rows := [Bare(2, 3), Bare(3, 2)];
    ParentIs(rows, 0);
    ParentIs(rows, 1);
    assert rows[0].pid == 2 && rows[1].pid == 3;
    assert Path(rows, 3, 2, 1) && Path(rows, 2, 3, 1) && Path(rows, 2, 2, 2);
    forall p | Has(rows, p)
      ensures !TopWithParent(rows, p)
    {
      assert p == 2 || p == 3;
    }
    CycleIsNotShown(rows, 2, 2, room);
  }

  // ---- The part of the sample whose chains end ----

  ghost function Ending(rows: seq<Info>, n: nat): (r: seq<Info>)
    requires n <= |rows|
    ensures |r| <= n
  {
    if n == 0 then [] else Ending(rows, n - 1) + if Ends(rows, rows[n - 1].pid) then [rows[n - 1]] else []
  }

  lemma {:induction false} EndingAre(rows: seq<Info>, n: nat)
    requires n <= |rows|
    ensures forall p :: p in Ending(rows, n) <==> p in rows[..n] && Ends(rows, p.pid)
  {
    if n > 0 {
      EndingAre(rows, n - 1);
      assert rows[..n] == rows[..n - 1] + [rows[n - 1]];
    }
  }

  lemma {:induction false} EndingIsSorted(rows: seq<Info>, n: nat)
    requires n <= |rows| && Sorted(rows)
    ensures Sorted(Ending(rows, n))
  {
    if n > 0 {
      EndingIsSorted(rows, n - 1);
      EndingIsBefore(rows, n - 1);
    }
  }

  lemma EndingIsBefore(rows: seq<Info>, n: nat)
    requires n < |rows| && Sorted(rows)
    ensures forall k :: 0 <= k < |Ending(rows, n)| ==> Ending(rows, n)[k].pid < rows[n].pid
  {
    EndingAre(rows, n);
    var sofar := Ending(rows, n);
    forall k | 0 <= k < |sofar|
      ensures sofar[k].pid < rows[n].pid
    {
      assert sofar[k] in rows[..n];
    }
  }

  ghost function Rooted(rows: seq<Info>): seq<Info> { Ending(rows, |rows|) }

  lemma RootedAre(rows: seq<Info>, q: int)
    requires Sorted(rows)
    ensures Sorted(Rooted(rows)) && |Rooted(rows)| <= |rows|
    ensures Has(Rooted(rows), q) <==> Ends(rows, q)
    ensures Ends(rows, q) ==> Has(rows, q) && ParentOf(Rooted(rows), q) == ParentOf(rows, q)
  {
    var part := Rooted(rows);
    EndingIsSorted(rows, |rows|);
    EndingAre(rows, |rows|);
    assert rows[..|rows|] == rows;
    if Ends(rows, q) {
      var p := rows[Position(rows, q)];
      assert p in part;
      var k :| 0 <= k < |part| && part[k] == p;
      PositionIs(part, k);
    }
    if Has(part, q) {
      var k :| 0 <= k < |part| && part[k].pid == q;
      assert part[k] in part;
    }
  }

  lemma ParentEnds(rows: seq<Info>, q: int)
    requires Ends(rows, q) && Has(rows, ParentOf(rows, q))
    ensures Ends(rows, ParentOf(rows, q))
  {
    var n: nat :| EndsIn(rows, q, n);
    assert EndsIn(rows, ParentOf(rows, q), n - 1);
  }

  lemma ChildEnds(rows: seq<Info>, i: nat)
    requires Sorted(rows) && i < |rows|
    ensures !Has(rows, rows[i].ppid) || Ends(rows, rows[i].ppid) ==> Ends(rows, rows[i].pid)
  {
    PositionIs(rows, i);
    if !Has(rows, rows[i].ppid) {
      assert EndsIn(rows, rows[i].pid, 0);
    } else if Ends(rows, rows[i].ppid) {
      var n: nat :| EndsIn(rows, rows[i].ppid, n);
      var m := n + 1;
      assert EndsIn(rows, rows[i].pid, m);
    }
  }

  // ---- It has the same children, roots and walks ----

  lemma {:induction false} SameKids(rows: seq<Info>, n: nat, p: int)
    requires Sorted(rows) && n <= |rows| && Ends(rows, p)
    ensures KidsOf(Ending(rows, n), p) == KidsOf(rows[..n], p)
  {
    if n > 0 {
      SameKids(rows, n - 1, p);
      KidsOfStep(rows, n - 1, p);
      EndingKidsStep(rows, n - 1, p);
    }
  }

  lemma EndingKidsStep(rows: seq<Info>, n: nat, p: int)
    requires Sorted(rows) && n < |rows| && Ends(rows, p)
    ensures KidsOf(Ending(rows, n + 1), p) == KidsOf(Ending(rows, n), p) + if rows[n].ppid == p then [rows[n].pid] else []
  {
    ChildEnds(rows, n);
    if Ends(rows, rows[n].pid) {
      KidsOfOneMore(Ending(rows, n), rows[n], p);
    } else {
      assert Ending(rows, n + 1) == Ending(rows, n);
    }
  }

  lemma KidsOfOneMore(rows: seq<Info>, x: Info, p: int)
    ensures KidsOf(rows + [x], p) == KidsOf(rows, p) + if x.ppid == p then [x.pid] else []
  {
    assert (rows + [x])[..|rows|] == rows;
  }

  lemma KidsEnd(rows: seq<Info>, p: int, k: nat)
    requires Sorted(rows) && Ends(rows, p) && k < |KidsOf(rows, p)|
    ensures Ends(rows, KidsOf(rows, p)[k])
  {
    KidsAreTheChildren(rows, p);
    assert KidsOf(rows, p)[k] in KidsOf(rows, p);
    var i :| 0 <= i < |rows| && rows[i].pid == KidsOf(rows, p)[k] && rows[i].ppid == p;
    ChildEnds(rows, i);
  }

  lemma TopIsOrphan(rows: seq<Info>, i: nat)
    requires Sorted(rows) && NoTops(rows) && i < |rows| && TopByItself(rows[i])
    ensures !Has(rows, rows[i].ppid) && rows[i].pid in Orphans(rows, |rows|)
  {
    ParentIs(rows, i);
    assert !TopWithParent(rows, rows[i].pid);
    OrphansAre(rows, |rows|);
  }

  lemma {:induction false} NoLateRoots(rows: seq<Info>, n: nat)
    requires n <= |rows| && Sorted(rows) && NoTops(rows)
    ensures LateRoots(rows, n) == []
  {
    if n > 0 {
      NoLateRoots(rows, n - 1);
      if TopByItself(rows[n - 1]) {
        TopIsOrphan(rows, n - 1);
      }
    }
  }

  lemma {:induction false} EndingIsPrefix(rows: seq<Info>, n: nat, m: nat)
    requires n <= m <= |rows|
    ensures Ending(rows, n) <= Ending(rows, m)
  {
    if n < m {
      EndingIsPrefix(rows, n, m - 1);
    }
  }

  /** Who ends has a parent in the part exactly if it has one in the sample; and who does not has one. */
  lemma SameParent(rows: seq<Info>, i: nat)
    requires Sorted(rows) && i < |rows|
    ensures if Ends(rows, rows[i].pid) then Has(Rooted(rows), rows[i].ppid) == Has(rows, rows[i].ppid) else Has(rows, rows[i].ppid)
  {
    PositionIs(rows, i);
    ChildEnds(rows, i);
    RootedAre(rows, rows[i].ppid);
    if Ends(rows, rows[i].pid) && Has(rows, rows[i].ppid) {
      ParentEnds(rows, rows[i].pid);
    }
  }

  lemma LastOfEnding(rows: seq<Info>, n: nat)
    requires 0 < n <= |rows| && Ends(rows, rows[n - 1].pid)
    ensures 0 < |Ending(rows, n)| <= |Rooted(rows)| && Rooted(rows)[|Ending(rows, n)| - 1] == rows[n - 1]
  {
    EndingIsPrefix(rows, n, |rows|);
    assert Ending(rows, n)[|Ending(rows, n)| - 1] == rows[n - 1];
  }

  lemma {:induction false} SameOrphans(rows: seq<Info>, n: nat)
    requires Sorted(rows) && n <= |rows|
    ensures |Ending(rows, n)| <= |Rooted(rows)| && Orphans(Rooted(rows), |Ending(rows, n)|) == Orphans(rows, n)
  {
    EndingIsPrefix(rows, n, |rows|);
    if n > 0 {
      var m := n - 1;
      SameOrphans(rows, m);
      SameParent(rows, m);
      if Ends(rows, rows[m].pid) {
        LastOfEnding(rows, n);
      } else {
        assert Ending(rows, n) == Ending(rows, m);
      }
    }
  }

  lemma RootedHasNoTops(rows: seq<Info>)
    requires Sorted(rows) && NoTops(rows)
    ensures Sorted(Rooted(rows)) && NoTops(Rooted(rows))
  {
    RootedAre(rows, 0);
    forall q | Has(Rooted(rows), q)
      ensures !TopWithParent(Rooted(rows), q)
    {
      RootedAre(rows, q);
      RootedAre(rows, ParentOf(rows, q));
      assert !TopWithParent(rows, q);
    }
  }

  lemma SameRoots(rows: seq<Info>)
    requires Sorted(rows) && NoTops(rows)
    ensures Roots(Rooted(rows)) == Roots(rows) && AllEnd(rows, Roots(rows))
  {
    RootedHasNoTops(rows);
    NoLateRoots(rows, |rows|);
    NoLateRoots(Rooted(rows), |Rooted(rows)|);
    SameOrphans(rows, |rows|);
    forall k | 0 <= k < |Roots(rows)|
      ensures Ends(rows, Roots(rows)[k])
    {
      RootEnds(rows, k);
    }
  }

  lemma RootEnds(rows: seq<Info>, k: nat)
    requires Sorted(rows) && NoTops(rows) && k < |Roots(rows)|
    ensures Ends(rows, Roots(rows)[k])
  {
    RootParent(rows, Roots(rows)[k]);
    assert EndsIn(rows, Roots(rows)[k], 0);
  }

  ghost predicate AllEnd(rows: seq<Info>, kids: seq<int>) { forall k :: 0 <= k < |kids| ==> Ends(rows, kids[k]) }

  /** Who ends is in the part, with all its children, who end too. */
  ghost predicate AgreesAt(rows: seq<Info>, part: seq<Info>, p: int) {
    Ends(rows, p) ==> Has(rows, p) && Has(part, p) && KidsOf(part, p) == KidsOf(rows, p) && AllEnd(rows, KidsOf(rows, p))
  }

  ghost predicate Agrees(rows: seq<Info>, part: seq<Info>) {
    forall p {:trigger AgreesAt(rows, part, p)} :: AgreesAt(rows, part, p)
  }

  lemma RootedAgrees(rows: seq<Info>)
    requires Sorted(rows)
    ensures Agrees(rows, Rooted(rows))
  {
    forall p
      ensures AgreesAt(rows, Rooted(rows), p)
    {
      if Ends(rows, p) {
        RootedAre(rows, p);
        SameKids(rows, |rows|, p);
        assert rows[..|rows|] == rows;
        forall k | 0 <= k < |KidsOf(rows, p)|
          ensures Ends(rows, KidsOf(rows, p)[k])
        {
          KidsEnd(rows, p, k);
        }
      }
    }
  }

  lemma WalksAgree(rows: seq<Info>, part: seq<Info>, p: int, depth: nat, last: bool, prefix: seq<int>, room: nat)
    requires Ends(rows, p) && AgreesAt(rows, part, p)
    requires room > 0 ==>
               var kids, under := KidsOf(rows, p), ChildPrefix(depth, last, prefix);
               WalkAll(part, kids, 0, depth + 1, under, room - 1) == WalkAll(rows, kids, 0, depth + 1, under, room - 1)
    ensures Walk(part, p, depth, last, prefix, room) == Walk(rows, p, depth, last, prefix, room)
  {
  }

  lemma EndsTogether(rows: seq<Info>, part: seq<Info>, p: int)
    requires Agrees(rows, part) && Ends(rows, p)
    ensures AgreesAt(rows, part, p) && AllEnd(rows, KidsOf(rows, p))
  {
    assert AgreesAt(rows, part, p);
  }

  lemma {:induction false} SameWalk(rows: seq<Info>, part: seq<Info>, p: int, depth: nat, last: bool, prefix: seq<int>, room: nat)
    requires Agrees(rows, part) && Ends(rows, p)
    ensures Walk(part, p, depth, last, prefix, room) == Walk(rows, p, depth, last, prefix, room)
    decreases room, 0
  {
    EndsTogether(rows, part, p);
    if room > 0 {
      SameWalkAll(rows, part, KidsOf(rows, p), 0, depth + 1, ChildPrefix(depth, last, prefix), room - 1);
    }
    WalksAgree(rows, part, p, depth, last, prefix, room);
  }

  lemma {:induction false} SameWalkAll(rows: seq<Info>, part: seq<Info>, kids: seq<int>, i: nat, depth: nat, prefix: seq<int>, room: nat)
    requires Agrees(rows, part) && i <= |kids| && AllEnd(rows, kids)
    ensures WalkAll(part, kids, i, depth, prefix, room) == WalkAll(rows, kids, i, depth, prefix, room)
    decreases room, |kids| - i + 1
  {
    if i < |kids| {
      var last := i + 1 == |kids|;
      SameWalk(rows, part, kids[i], depth, last, prefix, room);
      SameWalkAll(rows, part, kids, i + 1, depth, prefix, room - |Walk(rows, kids[i], depth, last, prefix, room)|);
      WalkAllStep(rows, kids, i, depth, prefix, room);
      WalkAllStep(part, kids, i, depth, prefix, room);
    }
  }

  // ---- Who is shown ----

  lemma {:induction false} EndsInPart(rows: seq<Info>, q: int, n: nat)
    requires Sorted(rows) && EndsIn(rows, q, n)
    ensures EndsIn(Rooted(rows), q, n)
    decreases n
  {
    RootedAre(rows, q);
    RootedAre(rows, ParentOf(rows, q));
    if Has(rows, ParentOf(rows, q)) {
      EndsInPart(rows, ParentOf(rows, q), n - 1);
    }
  }

  lemma RootedHasNoCycles(rows: seq<Info>)
    requires Sorted(rows)
    ensures NoCycles(Rooted(rows))
  {
    forall q | Has(Rooted(rows), q)
      ensures Ends(Rooted(rows), q)
    {
      RootedAre(rows, q);
      var n: nat :| EndsIn(rows, q, n);
      EndsInPart(rows, q, n);
    }
  }

  /**
   With more rows than processes and no root that has a parent, a process is shown once if its chain of parents
   ends, and else not at all.
   */
  lemma ShownIffEnds(rows: seq<Info>, room: nat, q: int)
    requires Sorted(rows) && NoTops(rows) && room > |rows|
    ensures Times(OnScreen(rows, room), q) == if Ends(rows, q) then 1 else 0
  {
    var part := Rooted(rows);
    RootedAre(rows, q);
    SameRoots(rows);
    RootedAgrees(rows);
    SameWalkAll(rows, part, Roots(rows), 0, 0, [], room);
    RootedHasNoCycles(rows);
    RootedHasNoTops(rows);
    TopsAreChildrenOfZero(part);
    OnceIffNoCycles(part, room);
    assert OnScreen(part, room) == OnScreen(rows, room);
    if !Ends(rows, q) {
      ShownIsInSample(part, room, q);
    }
  }
}
