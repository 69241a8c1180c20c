/**
 When the tree view shows every process once: exactly on the samples without a repeated PID in which every
 chain of parents comes to an end and no process names PID 0 while there is a process 0. A process that is
 its own parent is shown until the rows run out.
 */
module TreeCycles {
  import opened Sample
  import opened ProcessTree
  import opened TreeDraw
  import opened TreeOrder
  import opened TreeShape

  /** The n-th parent up from `q` is `p`. */
  ghost predicate Path(rows: seq<Info>, p: int, q: int, n: nat)
    decreases n
  {
    && Has(rows, q)
    && if n == 0 then q == p else Has(rows, ParentOf(rows, q)) && Path(rows, p, ParentOf(rows, q), n - 1)
  }

  /** The chain of parents of `q` ends after n steps, at a process whose parent is absent. */
  ghost predicate EndsIn(rows: seq<Info>, q: int, n: nat)
    decreases n
  {
    && Has(rows, q)
    && if Has(rows, ParentOf(rows, q)) then n > 0 && EndsIn(rows, ParentOf(rows, q), n - 1) else n == 0
  }

  ghost predicate Ends(rows: seq<Info>, q: int) { exists n :: EndsIn(rows, q, n) }

  ghost predicate NoCycles(rows: seq<Info>) {
    forall q {:trigger Ends(rows, q)} :: Has(rows, q) ==> Ends(rows, q)
  }

  // ---- No cycles: the levels of the acyclic sample ----

  lemma {:induction false} EndsOnce(rows: seq<Info>, q: int, m: nat, n: nat)
    requires EndsIn(rows, q, m) && EndsIn(rows, q, n)
    ensures m == n
    decreases m
  {
    if m > 0 {
      EndsOnce(rows, ParentOf(rows, q), m - 1, n - 1);
    }
  }

  ghost function LevelOf(rows: seq<Info>, q: int): (n: nat)
    requires NoCycles(rows) && Has(rows, q)
    ensures EndsIn(rows, q, n)
  {
    assert Ends(rows, q);
    var n :| EndsIn(rows, q, n);
    n
  }

  ghost function Levels(rows: seq<Info>): map<int, nat>
    requires NoCycles(rows)
  {
    map q | q in PidSet(rows) :: LevelOf(rows, q)
  }

  lemma {:induction false} Highest(levels: seq<nat>) returns (top: nat)
    ensures forall i :: 0 <= i < |levels| ==> levels[i] <= top
  {
    top := 0;
    if levels != [] {
      var n := |levels| - 1;
      top := Highest(levels[..n]);
      top := if levels[n] > top then levels[n] else top;
    }
  }

  lemma LevelsAreAcyclic(rows: seq<Info>) returns (top: nat)
    requires Sorted(rows) && NoCycles(rows)
    ensures Acyclic(rows, Levels(rows), top)
  {
    top := HighestLevel(rows);
    forall i | 0 <= i < |rows| && Has(rows, rows[i].ppid)
      ensures LevelOf(rows, rows[i].ppid) < LevelOf(rows, rows[i].pid)
    {
      ParentIsLower(rows, i);
    }
  }

  lemma HighestLevel(rows: seq<Info>) returns (top: nat)
    requires NoCycles(rows)
    ensures forall i :: 0 <= i < |rows| ==> LevelOf(rows, rows[i].pid) <= top
  {
    var levels := seq(|rows|, i requires 0 <= i < |rows| => LevelOf(rows, rows[i].pid));
    top := Highest(levels);
    assert forall i :: 0 <= i < |rows| ==> levels[i] == LevelOf(rows, rows[i].pid);
  }

  lemma ParentIsLower(rows: seq<Info>, i: nat)
    requires Sorted(rows) && NoCycles(rows) && i < |rows| && Has(rows, rows[i].ppid)
    ensures LevelOf(rows, rows[i].ppid) < LevelOf(rows, rows[i].pid)
  {
    PositionIs(rows, i);
    var n := LevelOf(rows, rows[i].pid);
    EndsOnce(rows, rows[i].ppid, n - 1, LevelOf(rows, rows[i].ppid));
  }

  lemma {:induction false} AcyclicEnds(rows: seq<Info>, level: map<int, nat>, top: nat, q: int) returns (n: nat)
    requires Acyclic(rows, level, top) && Has(rows, q)
    ensures EndsIn(rows, q, n)
    decreases if q in level then level[q] else 0
  {
    n := 0;
    if Has(rows, ParentOf(rows, q)) {
      n := AcyclicEnds(rows, level, top, ParentOf(rows, q));
      n := n + 1;
    }
  }

  // ---- A process that is its own parent fills the view ----

  lemma {:induction false} OwnParentFills(rows: seq<Info>, p: int, depth: nat, last: bool, prefix: seq<int>, room: nat)
    requires Sorted(rows) && Has(rows, p) && ParentOf(rows, p) == p
    ensures |Walk(rows, p, depth, last, prefix, room)| == room
    decreases room, 0
  {
    if room > 0 {
      var k := OwnKid(rows, p);
      OwnParentFillsAmong(rows, KidsOf(rows, p), 0, k, depth + 1, ChildPrefix(depth, last, prefix), room - 1);
    }
  }

  lemma OwnKid(rows: seq<Info>, p: int) returns (k: nat)
    requires Sorted(rows) && Has(rows, p) && ParentOf(rows, p) == p
    ensures k < |KidsOf(rows, p)| && KidsOf(rows, p)[k] == p
  {
    KidsAreTheChildren(rows, p);
    assert rows[Position(rows, p)].ppid == p;
    assert p in KidsOf(rows, p);
    k :| 0 <= k < |KidsOf(rows, p)| && KidsOf(rows, p)[k] == p;
  }

  lemma {:induction false} OwnParentFillsAmong(rows: seq<Info>, kids: seq<int>, i: nat, k: nat, depth: nat, prefix: seq<int>, room: nat)
    requires Sorted(rows) && i <= k < |kids| && Has(rows, kids[k]) && ParentOf(rows, kids[k]) == kids[k]
    ensures |WalkAll(rows, kids, i, depth, prefix, room)| == room
    decreases room, |kids| - i + 1
  {
    var first := Walk(rows, kids[i], depth, i + 1 == |kids|, prefix, room);
    WalkAllStep(rows, kids, i, depth, prefix, room);
    if i == k {
      OwnParentFills(rows, kids[k], depth, i + 1 == |kids|, prefix, room);
    } else {
      OwnParentFillsAmong(rows, kids, i + 1, k, depth, prefix, room - |first|);
    }
  }

  // ---- The exact condition ----

  lemma {:induction false} ChainIsPath(rows: seq<Info>, path: seq<int>, k: nat)
    requires Chain(rows, path) && k < |path| && Has(rows, path[0])
    ensures Path(rows, path[0], path[k], k)
  {
    if k > 0 {
      ChainIsPath(rows, path, k - 1);
      assert StepDown(rows, path, k);
    }
  }

  /** A process on the screen is at the lower end of a chain of parents that starts at a root. */
  lemma ShownHasRoot(rows: seq<Info>, room: nat, a: Line) returns (root: int, n: nat)
    requires Sorted(rows) && a in OnScreen(rows, room)
    ensures root in Roots(rows) && Path(rows, root, a.pid, n)
  {
    var paths := TreeIsDrawn(rows, room);
    var k :| 0 <= k < |OnScreen(rows, room)| && OnScreen(rows, room)[k] == a;
    var path := paths[k];
    LineHasChain(rows, OnScreen(rows, room), paths, k);
    root, n := path[0], |path| - 1;
    RootsAreExact(rows);
    ChainIsPath(rows, path, n);
  }

  lemma {:induction false} PathEnds(rows: seq<Info>, root: int, q: int, n: nat)
    requires Path(rows, root, q, n) && Has(rows, root) && !Has(rows, ParentOf(rows, root))
    ensures EndsIn(rows, q, n)
    decreases n
  {
    if n > 0 {
      PathEnds(rows, root, ParentOf(rows, q), n - 1);
    }
  }

  /** On top by its PPID, though that is the PID of a process in the sample. */
  ghost predicate TopWithParent(rows: seq<Info>, q: int)
    requires Has(rows, q)
  {
    Has(rows, ParentOf(rows, q)) && (ParentOf(rows, q) == 0 || ParentOf(rows, q) == q)
  }

  ghost predicate NoTops(rows: seq<Info>) { forall q :: Has(rows, q) ==> !TopWithParent(rows, q) }

  /** A root's parent is absent, zero or itself, and who is on top by its PPID is a root. */
  lemma RootParent(rows: seq<Info>, q: int)
    requires Sorted(rows)
    ensures q in Roots(rows) ==> Has(rows, q) && (!Has(rows, ParentOf(rows, q)) || TopWithParent(rows, q))
    ensures Has(rows, q) && TopWithParent(rows, q) ==> q in Roots(rows) && q in KidsOf(rows, ParentOf(rows, q))
  {
    RootsAreExact(rows);
    if q in Roots(rows) {
      var i :| 0 <= i < |rows| && rows[i].pid == q && (!Has(rows, rows[i].ppid) || TopByItself(rows[i]));
      PositionIs(rows, i);
    }
    if Has(rows, q) && TopWithParent(rows, q) {
      KidsAreTheChildren(rows, ParentOf(rows, q));
      assert rows[Position(rows, q)].pid == q && rows[Position(rows, q)].ppid == ParentOf(rows, q);
    }
  }

  /** Without cycles, nobody is on top with a parent exactly if nobody is a child of process 0. */
  lemma TopsAreChildrenOfZero(rows: seq<Info>)
    requires Sorted(rows)
    ensures NoTops(rows) ==> NoChildOfZero(rows)
    ensures NoCycles(rows) && NoChildOfZero(rows) ==> NoTops(rows)
  {
    if NoTops(rows) && Has(rows, 0) {
      forall i | 0 <= i < |rows|
        ensures rows[i].ppid != 0
      {
        PositionIs(rows, i);
        assert !TopWithParent(rows, rows[i].pid);
      }
    }
    if NoCycles(rows) && NoChildOfZero(rows) {
      forall q | Has(rows, q)
        ensures !TopWithParent(rows, q)
      {
        if ParentOf(rows, q) == q {
          assert Ends(rows, q);
          var n: nat :| EndsIn(rows, q, n);
          EndsOnce(rows, q, n, n - 1);
        }
      }
    }
  }

  /** A process that is its own parent fills the screen. */
  lemma OwnParentFillsScreen(rows: seq<Info>, p: int, room: nat)
    requires Sorted(rows) && Has(rows, p) && ParentOf(rows, p) == p
    ensures |OnScreen(rows, room)| == room
  {
    RootParent(rows, p);
    var k :| 0 <= k < |Roots(rows)| && Roots(rows)[k] == p;
    OwnParentFillsAmong(rows, Roots(rows), 0, k, 0, [], room);
  }

  /** If no root has a parent, whoever is on the screen has a chain of parents that comes to an end. */
  lemma ShownEnds(rows: seq<Info>, room: nat, a: Line) returns (n: nat)
    requires Sorted(rows) && NoTops(rows) && a in OnScreen(rows, room)
    ensures EndsIn(rows, a.pid, n)
  {
    var root;
    root, n := ShownHasRoot(rows, room, a);
    RootParent(rows, root);
    PathEnds(rows, root, a.pid, n);
  }

  // ---- A child is shown below its parent, in addition to where it is a root ----

  /** How many of the first n rows are of process c and name a parent that is among the lines. */
  ghost function Hanging(rows: seq<Info>, n: nat, lines: seq<Line>, c: int): nat
    requires n <= |rows|
  {
    if n == 0 then 0
    else Hanging(rows, n - 1, lines, c) + if rows[n - 1].pid == c && Times(lines, rows[n - 1].ppid) > 0 then 1 else 0
  }

  /** Process c is shown for each place it has among the tops, and for each of its rows whose parent is shown. */
  ghost predicate Owed(rows: seq<Info>, lines: seq<Line>, c: int, tops: seq<int>) {
    Times(lines, c) >= multiset(tops)[c] + Hanging(rows, |rows|, lines, c)
  }

  lemma {:induction false} HangingNowhere(rows: seq<Info>, n: nat, c: int)
    requires n <= |rows|
    ensures Hanging(rows, n, [], c) == 0
  {
    if n > 0 {
      HangingNowhere(rows, n - 1, c);
    }
  }

  lemma {:induction false} HangingConcat(rows: seq<Info>, n: nat, a: seq<Line>, b: seq<Line>, c: int)
    requires n <= |rows|
    ensures Hanging(rows, n, a + b, c) <= Hanging(rows, n, a, c) + Hanging(rows, n, b, c)
  {
    if n > 0 {
      HangingConcat(rows, n - 1, a, b, c);
      TimesConcat(a, b, rows[n - 1].ppid);
    }
  }

  /** How many of the first n rows are of process c and name p as their parent. */
  ghost function KidRows(rows: seq<Info>, n: nat, p: int, c: int): nat
    requires n <= |rows|
  {
    if n == 0 then 0 else KidRows(rows, n - 1, p, c) + if rows[n - 1].pid == c && rows[n - 1].ppid == p then 1 else 0
  }

  lemma CountOneMore(s: seq<int>, x: int, c: int)
    ensures multiset(s + [x])[c] == multiset(s)[c] + if x == c then 1 else 0
  {
  }

  lemma KidCountStep(rows: seq<Info>, i: nat, p: int, c: int)
    requires i < |rows|
    ensures multiset(KidsOf(rows[..i + 1], p))[c]
         == multiset(KidsOf(rows[..i], p))[c] + if rows[i].pid == c && rows[i].ppid == p then 1 else 0
  {
    var before, after := KidsOf(rows[..i], p), KidsOf(rows[..i + 1], p);
    KidsOfStep(rows, i, p);
    if rows[i].ppid == p {
      assert after == before + [rows[i].pid];
      CountOneMore(before, rows[i].pid, c);
    } else {
      assert after == before;
    }
  }

  lemma {:induction false} KidRowsAreKids(rows: seq<Info>, n: nat, p: int, c: int)
    requires n <= |rows|
    ensures multiset(KidsOf(rows[..n], p))[c] == KidRows(rows, n, p, c)
  {
    if n > 0 {
      KidRowsAreKids(rows, n - 1, p, c);
      KidCountStep(rows, n - 1, p, c);
    }
  }

  lemma {:induction false} HangingFirst(rows: seq<Info>, n: nat, a: Line, rest: seq<Line>, c: int)
    requires n <= |rows|
    ensures Hanging(rows, n, [a] + rest, c) <= KidRows(rows, n, a.pid, c) + Hanging(rows, n, rest, c)
  {
    if n > 0 {
      HangingFirst(rows, n - 1, a, rest, c);
      TimesFirst(a, rest, rows[n - 1].ppid);
    }
  }

  lemma TimesFirst(a: Line, b: seq<Line>, q: int)
    ensures Times([a] + b, q) == (if a.pid == q then 1 else 0) + Times(b, q)
  {
    TimesConcat([a], b, q);
    assert [a][..0] == [];
  }

  lemma OwedConcat(rows: seq<Info>, a: seq<Line>, b: seq<Line>, c: int, s: seq<int>, t: seq<int>)
    requires Owed(rows, a, c, s) && Owed(rows, b, c, t)
    ensures Owed(rows, a + b, c, s + t)
  {
    TimesConcat(a, b, c);
    HangingConcat(rows, |rows|, a, b, c);
  }

  lemma OwedWalk(rows: seq<Info>, c: int, line: Line, lines: seq<Line>, rest: seq<Line>)
    requires Has(rows, c)
    requires if Has(rows, line.pid) then lines == [line] + rest && Owed(rows, rest, c, KidsOf(rows, line.pid)[0..]) else lines == []
    ensures Owed(rows, lines, c, [line.pid])
  {
    if Has(rows, line.pid) {
      TimesFirst(line, rest, c);
      HangingFirst(rows, |rows|, line, rest, c);
      KidRowsAreKids(rows, |rows|, line.pid, c);
      assert rows[..|rows|] == rows && KidsOf(rows, line.pid)[0..] == KidsOf(rows, line.pid);
    } else {
      HangingNowhere(rows, |rows|, c);
    }
  }

  lemma OwedAmong(rows: seq<Info>, c: int, first: seq<Line>, rest: seq<Line>, kids: seq<int>, i: nat)
    requires i < |kids| && Owed(rows, first, c, [kids[i]]) && Owed(rows, rest, c, kids[i + 1..])
    ensures Owed(rows, first + rest, c, kids[i..])
  {
    OwedConcat(rows, first, rest, c, [kids[i]], kids[i + 1..]);
    assert kids[i..] == [kids[i]] + kids[i + 1..];
  }

  lemma OwedNothing(rows: seq<Info>, c: int, kids: seq<int>)
    ensures Owed(rows, [], c, kids[|kids|..])
  {
    HangingNowhere(rows, |rows|, c);
  }

  lemma RestIsShorter(rows: seq<Info>, p: int, depth: nat, last: bool, prefix: seq<int>, room: nat)
    requires Has(rows, p) && |Walk(rows, p, depth, last, prefix, room)| < room
    ensures room > 0 && |WalkAll(rows, KidsOf(rows, p), 0, depth + 1, ChildPrefix(depth, last, prefix), room - 1)| < room - 1
  {
  }

  lemma WalkOwesStep(rows: seq<Info>, c: int, p: int, depth: nat, last: bool, prefix: seq<int>, room: nat)
    requires Has(rows, c) && room > 0
    requires Has(rows, p) ==>
      Owed(rows, WalkAll(rows, KidsOf(rows, p), 0, depth + 1, ChildPrefix(depth, last, prefix), room - 1), c, KidsOf(rows, p)[0..])
    ensures Owed(rows, Walk(rows, p, depth, last, prefix, room), c, [p])
  {
    var lines := Walk(rows, p, depth, last, prefix, room);
    var rest := WalkParts(rows, p, depth, last, prefix, room, lines);
    OwedWalk(rows, c, Line(prefix + Glyph(depth, last), p), lines, rest);
  }

  lemma {:induction false} WalkOwes(rows: seq<Info>, c: int, p: int, depth: nat, last: bool, prefix: seq<int>, room: nat)
    requires Has(rows, c) && |Walk(rows, p, depth, last, prefix, room)| < room
    ensures Owed(rows, Walk(rows, p, depth, last, prefix, room), c, [p])
    decreases room, 0
  {
    if Has(rows, p) {
      RestIsShorter(rows, p, depth, last, prefix, room);
      WalkAllOwes(rows, c, KidsOf(rows, p), 0, depth + 1, ChildPrefix(depth, last, prefix), room - 1);
      WalkOwesStep(rows, c, p, depth, last, prefix, room);
    } else {
      WalkOwesStep(rows, c, p, depth, last, prefix, room);
    }
  }

  lemma {:induction false} WalkAllOwes(rows: seq<Info>, c: int, kids: seq<int>, i: nat, depth: nat, prefix: seq<int>, room: nat)
    requires Has(rows, c) && i <= |kids| && |WalkAll(rows, kids, i, depth, prefix, room)| < room
    ensures Owed(rows, WalkAll(rows, kids, i, depth, prefix, room), c, kids[i..])
    decreases room, |kids| - i + 1
  {
    if i < |kids| {
      var last := i + 1 == |kids|;
      var first := Walk(rows, kids[i], depth, last, prefix, room);
      var rest := WalkAll(rows, kids, i + 1, depth, prefix, room - |first|);
      WalkAllStep(rows, kids, i, depth, prefix, room);
      WalkOwes(rows, c, kids[i], depth, last, prefix, room);
      WalkAllOwes(rows, c, kids, i + 1, depth, prefix, room - |first|);
      OwedAmong(rows, c, first, rest, kids, i);
    } else {
      OwedNothing(rows, c, kids);
    }
  }

  /** On a screen with room to spare, a process is shown for each place as a root and each row below a parent shown. */
  lemma ScreenOwes(rows: seq<Info>, room: nat, c: int)
    requires Has(rows, c) && |OnScreen(rows, room)| < room
    ensures Owed(rows, OnScreen(rows, room), c, Roots(rows))
  {
    WalkAllOwes(rows, c, Roots(rows), 0, 0, [], room);
    assert Roots(rows)[0..] == Roots(rows);
  }

  lemma {:induction false} HangingHas(rows: seq<Info>, n: nat, lines: seq<Line>, i: nat)
    requires i < n <= |rows| && Times(lines, rows[i].ppid) > 0
    ensures Hanging(rows, n, lines, rows[i].pid) > 0
  {
    if i < n - 1 {
      HangingHas(rows, n - 1, lines, i);
    }
  }

  /** Who is on top with a parent in the sample is shown twice, if its parent is shown and there is room. */
  lemma TopIsShownTwice(rows: seq<Info>, room: nat, q: int)
    requires Sorted(rows) && Has(rows, q) && TopWithParent(rows, q)
    requires |OnScreen(rows, room)| < room && Times(OnScreen(rows, room), ParentOf(rows, q)) > 0
    ensures Times(OnScreen(rows, room), q) >= 2
  {
    RootParent(rows, q);
    ScreenOwes(rows, room, q);
    HangingHas(rows, |rows|, OnScreen(rows, room), Position(rows, q));
  }

  // ---- A process with two rows is shown twice ----

  /** The places that the first n rows of process c give it on the screen. */
  ghost function Places(rows: seq<Info>, n: nat, lines: seq<Line>, c: int): nat
    requires n <= |rows|
  {
    multiset(Orphans(rows, n))[c] + Hanging(rows, n, lines, c)
  }

  lemma {:induction false} PlacesGrow(rows: seq<Info>, i: nat, n: nat, lines: seq<Line>, c: int)
    requires i <= n <= |rows|
    ensures Places(rows, i, lines, c) <= Places(rows, n, lines, c)
  {
    if i < n {
      PlacesGrow(rows, i, n - 1, lines, c);
    }
  }

  lemma OnePlace(rows: seq<Info>, i: nat, lines: seq<Line>)
    requires i < |rows| && (Has(rows, rows[i].ppid) ==> Times(lines, rows[i].ppid) > 0)
    ensures Places(rows, i + 1, lines, rows[i].pid) > Places(rows, i, lines, rows[i].pid)
  {
    CountOneMore(Orphans(rows, i), rows[i].pid, rows[i].pid);
  }

  lemma PlaceOfRow(rows: seq<Info>, i: nat, n: nat, lines: seq<Line>)
    requires i < n <= |rows| && (Has(rows, rows[i].ppid) ==> Times(lines, rows[i].ppid) > 0)
    ensures Places(rows, n, lines, rows[i].pid) > Places(rows, i, lines, rows[i].pid)
  {
    OnePlace(rows, i, lines);
    PlacesGrow(rows, i + 1, n, lines, rows[i].pid);
  }

  ghost predicate AllShown(rows: seq<Info>, lines: seq<Line>) { forall p :: Has(rows, p) ==> Times(lines, p) > 0 }

  lemma TwoRowsAreShownTwice(rows: seq<Info>, room: nat, i: nat, j: nat)
    requires i < j < |rows| && rows[i].pid == rows[j].pid && |OnScreen(rows, room)| < room
    requires AllShown(rows, OnScreen(rows, room))
    ensures Times(OnScreen(rows, room), rows[i].pid) >= 2
  {
    var lines := OnScreen(rows, room);
    ScreenOwes(rows, room, rows[i].pid);
    PlaceOfRow(rows, i, j, lines);
    PlaceOfRow(rows, j, |rows|, lines);
  }

  // ---- The exact condition for each once ----

  ghost predicate AllIn(rows: seq<Info>, lines: seq<Line>) { forall k :: 0 <= k < |lines| ==> Has(rows, lines[k].pid) }

  lemma AllInWalk(rows: seq<Info>, p: int, depth: nat, last: bool, prefix: seq<int>, room: nat)
    requires room > 0 && Has(rows, p) ==>
      AllIn(rows, WalkAll(rows, KidsOf(rows, p), 0, depth + 1, ChildPrefix(depth, last, prefix), room - 1))
    ensures AllIn(rows, Walk(rows, p, depth, last, prefix, room))
  {
  }

  lemma AllInBoth(rows: seq<Info>, a: seq<Line>, b: seq<Line>, lines: seq<Line>)
    requires AllIn(rows, a) && AllIn(rows, b) && lines == a + b
    ensures AllIn(rows, lines)
  {
  }

  lemma {:induction false} WalkIsInSample(rows: seq<Info>, p: int, depth: nat, last: bool, prefix: seq<int>, room: nat)
    ensures AllIn(rows, Walk(rows, p, depth, last, prefix, room))
    decreases room, 0
  {
    if room > 0 && Has(rows, p) {
      WalkAllIsInSample(rows, KidsOf(rows, p), 0, depth + 1, ChildPrefix(depth, last, prefix), room - 1);
    }
    AllInWalk(rows, p, depth, last, prefix, room);
  }

  lemma {:induction false} WalkAllIsInSample(rows: seq<Info>, kids: seq<int>, i: nat, depth: nat, prefix: seq<int>, room: nat)
    requires i <= |kids|
    ensures AllIn(rows, WalkAll(rows, kids, i, depth, prefix, room))
    decreases room, |kids| - i + 1
  {
    if i < |kids| {
      var first := Walk(rows, kids[i], depth, i + 1 == |kids|, prefix, room);
      var rest := WalkAll(rows, kids, i + 1, depth, prefix, room - |first|);
      WalkIsInSample(rows, kids[i], depth, i + 1 == |kids|, prefix, room);
      WalkAllIsInSample(rows, kids, i + 1, depth, prefix, room - |first|);
      WalkAllStep(rows, kids, i, depth, prefix, room);
      AllInBoth(rows, first, rest, WalkAll(rows, kids, i, depth, prefix, room));
    }
  }

  lemma ShownIsInSample(rows: seq<Info>, room: nat, q: int)
    requires !Has(rows, q)
    ensures Times(OnScreen(rows, room), q) == 0
  {
    WalkAllIsInSample(rows, Roots(rows), 0, 0, [], room);
    Absent(OnScreen(rows, room), q);
  }

  ghost predicate EachOnce(rows: seq<Info>, room: nat) {
    forall q :: Has(rows, q) ==> Times(OnScreen(rows, room), q) == 1
  }

  lemma {:induction false} NoMorePids(rows: seq<Info>)
    ensures |PidSet(rows)| <= |rows|
  {
    if rows != [] {
      var before := rows[..|rows| - 1];
      NoMorePids(before);
      assert PidSet(rows) == PidSet(before) + {rows[|rows| - 1].pid};
    }
  }

  /** With each process on the screen once, and nothing else, there are no more lines than rows of the sample. */
  lemma OnceIsNotFull(rows: seq<Info>, room: nat)
    requires EachOnce(rows, room)
    ensures |OnScreen(rows, room)| <= |rows|
  {
    var lines := OnScreen(rows, room);
    forall q
      ensures Times(lines, q) == if Has(rows, q) then 1 else 0
    {
      if !Has(rows, q) {
        ShownIsInSample(rows, room, q);
      }
    }
    DistinctLines(lines);
    SamePids(rows, lines);
    NoMorePids(rows);
  }

  /** Each process can be on the screen once only if the sample has it once. */
  lemma OnceIsSorted(rows: seq<Info>, room: nat)
    requires Ordered(rows) && room > |rows| && EachOnce(rows, room)
    ensures Sorted(rows)
  {
    OnceIsNotFull(rows, room);
    forall i, j | 0 <= i < j < |rows|
      ensures rows[i].pid < rows[j].pid
    {
      if rows[i].pid == rows[j].pid {
        TwoRowsAreShownTwice(rows, room, i, j);
      }
    }
  }

  lemma OnceEnds(rows: seq<Info>, room: nat)
    requires Sorted(rows) && room > |rows| && EachOnce(rows, room)
    ensures NoCycles(rows) && NoTops(rows)
  {
    var lines := OnScreen(rows, room);
    OnceIsNotFull(rows, room);
    forall q | Has(rows, q)
      ensures !TopWithParent(rows, q)
    {
      if TopWithParent(rows, q) {
        TopIsShownTwice(rows, room, q);
      }
    }
    forall q | Has(rows, q)
      ensures Ends(rows, q)
    {
      OnceHasLine(rows, lines, q);
      var a :| a in lines && a.pid == q;
      var n := ShownEnds(rows, room, a);
    }
  }

  lemma OnceHasLine(rows: seq<Info>, lines: seq<Line>, q: int)
    requires Times(lines, q) == 1
    ensures exists a :: a in lines && a.pid == q
  {
    if forall a :: a in lines ==> a.pid != q {
      Absent(lines, q);
    }
  }

  /**
   With more rows than processes, each process is shown exactly once if and only if the sample names no PID
   twice, no parents form a cycle, and nobody names PID 0 while a process 0 is in the sample.
   */
  lemma OnceIffNoCycles(rows: seq<Info>, room: nat)
    requires Ordered(rows) && room > |rows|
    ensures EachOnce(rows, room) <==> Sorted(rows) && NoCycles(rows) && NoChildOfZero(rows)
  {
    if Sorted(rows) && NoCycles(rows) && NoChildOfZero(rows) {
      var level := Levels(rows);
      var top := LevelsAreAcyclic(rows);
      EveryProcessOnce(rows, level, top);
      RootsAreAbove(rows, level, top);
      WalkAllIsPreorder(rows, level, top, Roots(rows), 0, -1, 0, [], room);
      assert OnScreen(rows, room) == Forest(rows, level, top);
    }
    if EachOnce(rows, room) {
      OnceIsSorted(rows, room);
      OnceEnds(rows, room);
      TopsAreChildrenOfZero(rows);
    }
  }

  // ---- Samples on which it fails ----

  /** A process of which only the PID and the PPID matter. */
  function Bare(pid: int, ppid: int): Info { Info(pid, ppid, "", 0, 0, 0, 0, 0.0, 0.0, 0.0) }

  lemma ParentIs(rows: seq<Info>, i: nat)
    requires Sorted(rows) && i < |rows|
    ensures Has(rows, rows[i].pid) && ParentOf(rows, rows[i].pid) == rows[i].ppid
  {
    PositionIs(rows, i);
  }

  lemma WalkOfLeaf(rows: seq<Info>, p: int, depth: nat, last: bool, prefix: seq<int>, room: nat)
    requires Has(rows, p) && KidsOf(rows, p) == [] && room > 0
    ensures Walk(rows, p, depth, last, prefix, room) == [Line(prefix + Glyph(depth, last), p)]
  {
  }

  lemma WalkOfOnlyChild(rows: seq<Info>, p: int, q: int, room: nat) returns (a: Line, b: Line)
    requires Has(rows, p) && Has(rows, q) && KidsOf(rows, p) == [q] && KidsOf(rows, q) == [] && room > 1
    ensures Walk(rows, p, 0, false, [], room) == [a, b] && a.pid == p && b.pid == q
  {
    var under := ChildPrefix(0, false, []);
    a, b := Line(Glyph(0, false), p), Line(under + Glyph(1, true), q);
    WalkOfLeaf(rows, q, 1, true, under, room - 1);
    WalkAllStep(rows, [q], 0, 1, under, room - 1);
    var rest := WalkParts(rows, p, 0, false, [], room, Walk(rows, p, 0, false, [], room));
    assert [] + Glyph(0, false) == Glyph(0, false);
  }

  lemma TimesOfLast(lines: seq<Line>, a: Line)
    ensures Times(lines + [a], a.pid) == Times(lines, a.pid) + 1
  {
    assert (lines + [a])[..|lines|] == lines;
  }

  lemma RootsOfTwo(rows: seq<Info>)
    requires |rows| == 2 && !Has(rows, rows[0].ppid)
    requires Has(rows, rows[1].ppid) ==> rows[1].ppid == 0 && rows[0].pid != rows[1].pid
    ensures Roots(rows) == [rows[0].pid, rows[1].pid]
  {
    assert Orphans(rows, 1) == [rows[0].pid];
    assert LateRoots(rows, 0) == LateRoots(rows, 1) == [];
  }

  /** A process 0, which a name of 2^32 gives, and a process that names it as its parent: that one is shown twice. */
  lemma ChildOfZeroIsShownTwice(room: nat)
    requires room > 2
    ensures NoCycles([Bare(0, 9), Bare(4, 0)]) && Times(OnScreen([Bare(0, 9), Bare(4, 0)], room), 4) == 2
  {
    var rows := [Bare(0, 9), Bare(4, 0)];
    ChainsOfTwo(rows);
    RootsOfTwo(rows);
    assert rows[..1] == [rows[0]];
    var a, b, c := WalkOfParentAgain(rows, 0, 4, room);
    TimesOfLast([a] + [b], c);
    TimesOfLast([a], b);
    TimesFirst(a, [], 4);
  }

  /** The walk over a process and its only child as siblings. */
  lemma WalkOfParentAgain(rows: seq<Info>, p: int, q: int, room: nat) returns (a: Line, b: Line, c: Line)
    requires Has(rows, p) && Has(rows, q) && KidsOf(rows, p) == [q] && KidsOf(rows, q) == [] && room > 2
    ensures WalkAll(rows, [p, q], 0, 0, [], room) == [a] + [b] + [c] && a.pid == p && b.pid == q && c.pid == q
  {
    a, b := WalkOfOnlyChild(rows, p, q, room);
    c := Line([] + Glyph(0, true), q);
    WalkOfLeaf(rows, q, 0, true, [], room - 2);
    WalkAllStep(rows, [p, q], 0, 0, [], room);
    WalkAllStep(rows, [p, q], 1, 0, [], room - 2);
  }

  lemma ChainsOfTwo(rows: seq<Info>)
    requires rows == [Bare(0, 9), Bare(4, 0)]
    ensures NoCycles(rows)
  {
    ParentIs(rows, 0);
    ParentIs(rows, 1);
    assert rows[0].pid == 0 && rows[1].pid == 4 && rows[1].ppid == 0;
    assert EndsIn(rows, 0, 0) && EndsIn(rows, 4, 1);
    forall q | Has(rows, q)
      ensures Ends(rows, q)
    {
      assert q == 0 || q == 4;
    }
  }

  /** A process that the listing names twice. */
  lemma RepeatedIsShownTwice(room: nat)
    requires room > 1
    ensures Times(OnScreen([Bare(7, 1), Bare(7, 1)], room), 7) == 2
  {
    var rows := [Bare(7, 1), Bare(7, 1)];
    assert rows[0].pid == rows[1].pid == 7;
    assert rows[..1] == [rows[0]];
    RootsOfTwo(rows);
    WalkOfLeaf(rows, 7, 0, false, [], room);
    WalkOfLeaf(rows, 7, 0, true, [], room - 1);
    WalkAllStep(rows, [7, 7], 0, 0, [], room);
    WalkAllStep(rows, [7, 7], 1, 0, [], room - 1);
    var a, b := Line([] + Glyph(0, false), 7), Line([] + Glyph(0, true), 7);
    assert OnScreen(rows, room) == [a] + [b];
    TimesOfLast([a], b);
    TimesFirst(a, [], 7);
  }

  /** A process that is its own parent. */
  lemma OwnParentIsShownAlways(room: nat)
    ensures |OnScreen([Bare(5, 5)], room)| == room
  {
    var rows := [Bare(5, 5)];
    ParentIs(rows, 0);
    OwnParentFillsScreen(rows, 5, room);
  }

  /** The samples with levels are those without cycles. */
  lemma AcyclicIffNoCycles(rows: seq<Info>)
    requires Sorted(rows)
    ensures NoCycles(rows) <==> exists level, top :: Acyclic(rows, level, top)
  {
    if NoCycles(rows) {
      var top := LevelsAreAcyclic(rows);
    }
    if level, top :| Acyclic(rows, level, top) {
      forall q | Has(rows, q)
        ensures Ends(rows, q)
      {
        var n := AcyclicEnds(rows, level, top, q);
      }
    }
  }
}
