/**
 What the tree view looks like, told from the sample: each line stands for a chain of parents down from a root,
 its indent tells which processes of the chain have a sibling further down, and the lines are in depth-first order.
 */
module TreeShape {
  import opened Sample
  import opened ProcessTree
  import opened TreeDraw
  import opened TreeOrder

  // ---- Chains of parents ----

  ghost predicate StepDown(rows: seq<Info>, path: seq<int>, k: nat)
    requires 0 < k < |path|
  {
    Has(rows, path[k]) && ParentOf(rows, path[k]) == path[k - 1]
  }

  /** From a root down, each the parent of the next. */
  ghost predicate Chain(rows: seq<Info>, path: seq<int>) {
    && path != [] && path[0] in Roots(rows)
    && forall k :: 0 < k < |path| ==> StepDown(rows, path, k)
  }

  function Last(path: seq<int>): int
    requires path != []
  {
    path[|path| - 1]
  }

  lemma LongerChain(rows: seq<Info>, path: seq<int>, kid: int)
    requires Chain(rows, path) && Has(rows, kid) && ParentOf(rows, kid) == Last(path)
    ensures Chain(rows, path + [kid])
  {
    var longer := path + [kid];
    forall k | 0 < k < |longer|
      ensures StepDown(rows, longer, k)
    {
      assert k < |path| ==> StepDown(rows, path, k);
    }
  }

  // ---- Indents ----

  /** The parent has a child further down than this one. */
  ghost predicate MoreBelow(rows: seq<Info>, q: int) {
    Has(rows, q) && exists i :: 0 <= i < |rows| && rows[i].pid > q && rows[i].ppid == ParentOf(rows, q)
  }

  /** For each process of the chain but the root: a bar if there is a sibling further down, and blanks if not. */
  ghost function Segments(rows: seq<Info>, path: seq<int>): seq<int> {
    if |path| <= 1 then []
    else Segments(rows, path[..|path| - 1]) + if MoreBelow(rows, Last(path)) then [226, 148, 130, 32, 32] else [32, 32, 32]
  }

  /** The indent of the last of the chain: what its ancestors give, and a tee, or a corner for the last child. */
  ghost function Indent(rows: seq<Info>, path: seq<int>): seq<int>
    requires path != []
  {
    if |path| == 1 then []
    else
      Segments(rows, path[..|path| - 1])
      + if MoreBelow(rows, Last(path)) then [226, 148, 156, 226, 148, 128, 32] else [226, 148, 148, 226, 148, 128, 32]
  }

  ghost predicate Fits(rows: seq<Info>, path: seq<int>)
    requires path != []
  {
    |Segments(rows, path[..|path| - 1])| < 512
  }

  /** The line is that of the last of the chain, with its indent as long as the prefix fits its buffer. */
  ghost predicate Draws(rows: seq<Info>, line: Line, path: seq<int>) {
    && Chain(rows, path) && line.pid == Last(path)
    && (Fits(rows, path) ==> line.indent == Indent(rows, path))
  }

  // ---- Order ----

  /** Of two siblings the first: by the place among the roots, and below them by the PID. */
  ghost predicate Earlier(rows: seq<Info>, depth: nat, p: int, q: int) {
    if depth == 0 then exists i, j :: 0 <= i < j < |Roots(rows)| && Roots(rows)[i] == p && Roots(rows)[j] == q
    else p < q
  }

  /** Depth first: an ancestor before its descendants, and else as the siblings on the way are. */
  ghost predicate Sooner(rows: seq<Info>, a: seq<int>, b: seq<int>) {
    || a < b
    || exists n :: 0 <= n < |a| && n < |b| && a[..n] == b[..n] && Earlier(rows, n, a[n], b[n])
  }

  ghost predicate InTurn(rows: seq<Info>, paths: seq<seq<int>>) {
    forall j, k :: 0 <= j < k < |paths| ==> Sooner(rows, paths[j], paths[k])
  }

  /** The lines and their chains, in depth-first order. */
  ghost predicate Shape(rows: seq<Info>, lines: seq<Line>, paths: seq<seq<int>>) {
    && |paths| == |lines| && InTurn(rows, paths)
    && forall k :: 0 <= k < |lines| ==> Draws(rows, lines[k], paths[k])
  }

  lemma LineHasChain(rows: seq<Info>, lines: seq<Line>, paths: seq<seq<int>>, k: nat)
    requires Shape(rows, lines, paths) && k < |lines|
    ensures Chain(rows, paths[k]) && lines[k].pid == Last(paths[k])
  {
    assert Draws(rows, lines[k], paths[k]);
  }

  /** Below number i or a later one of the siblings at the end of the path. */
  ghost predicate Branch(path: seq<int>, kids: seq<int>, i: nat, p: seq<int>) {
    path < p && exists m :: i <= m < |kids| && p[|path|] == kids[m]
  }

  lemma BranchesApart(rows: seq<Info>, path: seq<int>, kids: seq<int>, i: nat, a: seq<int>, b: seq<int>)
    requires i < |kids| && path + [kids[i]] <= a && Branch(path, kids, i + 1, b)
    requires forall m, n :: 0 <= m < n < |kids| ==> Earlier(rows, |path|, kids[m], kids[n])
    ensures Sooner(rows, a, b)
  {
    var n := |path|;
    assert a[n] == (path + [kids[i]])[n] && a[..n] == (path + [kids[i]])[..n] == path == b[..n];
  }

  lemma JoinShapes(rows: seq<Info>, a: seq<Line>, b: seq<Line>, s: seq<seq<int>>, t: seq<seq<int>>)
    requires Shape(rows, a, s) && Shape(rows, b, t)
    requires forall j, k :: 0 <= j < |s| && 0 <= k < |t| ==> Sooner(rows, s[j], t[k])
    ensures Shape(rows, a + b, s + t)
  {
  }

  // ---- The walk ----

  /** What the walk is called with: the siblings at the end of a path, and the prefix that goes with it. */
  ghost predicate Brood(rows: seq<Info>, path: seq<int>, kids: seq<int>, prefix: seq<int>) {
    && (forall m :: 0 <= m < |kids| ==> Chain(rows, path + [kids[m]]))
    && (forall m, n :: 0 <= m < n < |kids| ==> Earlier(rows, |path|, kids[m], kids[n]))
    && (path != [] ==> forall m :: 0 <= m < |kids| ==> (m + 1 < |kids| <==> MoreBelow(rows, kids[m])))
    && (|Segments(rows, path)| < PREFIX_MAX ==> prefix == Segments(rows, path))
  }

  lemma KidsAreBrood(rows: seq<Info>, path: seq<int>, prefix: seq<int>)
    requires Sorted(rows) && Chain(rows, path) && Has(rows, Last(path))
    requires |Segments(rows, path)| < PREFIX_MAX ==> prefix == Segments(rows, path)
    ensures Brood(rows, path, KidsOf(rows, Last(path)), prefix)
  {
    var p := Last(path);
    var kids := KidsOf(rows, p);
    KidsAreTheChildren(rows, p);
    forall m | 0 <= m < |kids|
      ensures Chain(rows, path + [kids[m]]) && (m + 1 < |kids| <==> MoreBelow(rows, kids[m]))
    {
      KidIsChild(rows, p, m);
      LongerChain(rows, path, kids[m]);
      LastHasNoneBelow(rows, p, m);
    }
  }

  lemma LastHasNoneBelow(rows: seq<Info>, p: int, m: nat)
    requires Sorted(rows) && m < |KidsOf(rows, p)|
    ensures m + 1 < |KidsOf(rows, p)| <==> MoreBelow(rows, KidsOf(rows, p)[m])
  {
    var kids := KidsOf(rows, p);
    KidsAreTheChildren(rows, p);
    KidIsChild(rows, p, m);
    if m + 1 < |kids| {
      assert kids[m + 1] in kids;
      var i :| 0 <= i < |rows| && rows[i].pid == kids[m + 1] && rows[i].ppid == p;
      assert rows[i].pid > kids[m];
    }
    if MoreBelow(rows, kids[m]) {
      var i :| 0 <= i < |rows| && rows[i].pid > kids[m] && rows[i].ppid == p;
      assert rows[i].pid in kids;
    }
  }

  lemma RootsAreBrood(rows: seq<Info>)
    requires Sorted(rows)
    ensures Brood(rows, [], Roots(rows), [])
  {
    RootsAreExact(rows);
    var roots := Roots(rows);
    forall m | 0 <= m < |roots|
      ensures Chain(rows, [] + [roots[m]])
    {
      assert roots[m] in roots;
    }
  }

  /** What the walk from the last of a path is called with. */
  ghost predicate Entered(rows: seq<Info>, path: seq<int>, last: bool, prefix: seq<int>) {
    && Chain(rows, path) && (Fits(rows, path) ==> prefix == Segments(rows, path[..|path| - 1]))
    && (|path| > 1 ==> last == !MoreBelow(rows, Last(path)))
  }

  /** The prefix that the children are drawn with. */
  lemma NextBrood(rows: seq<Info>, path: seq<int>, last: bool, prefix: seq<int>)
    requires Sorted(rows) && Entered(rows, path, last, prefix) && Has(rows, Last(path))
    ensures Brood(rows, path, KidsOf(rows, Last(path)), ChildPrefix(|path| - 1, last, prefix))
  {
    KidsAreBrood(rows, path, ChildPrefix(|path| - 1, last, prefix));
  }

  lemma EnterKid(rows: seq<Info>, path: seq<int>, kids: seq<int>, i: nat, prefix: seq<int>)
    requires Brood(rows, path, kids, prefix) && i < |kids|
    ensures Entered(rows, path + [kids[i]], i + 1 == |kids|, prefix)
  {
    var step := path + [kids[i]];
    assert step[..|step| - 1] == path;
  }

  lemma FirstLine(rows: seq<Info>, path: seq<int>, last: bool, prefix: seq<int>)
    requires Entered(rows, path, last, prefix)
    ensures Draws(rows, Line(prefix + Glyph(|path| - 1, last), Last(path)), path)
  {
  }

  /** The chains of the lines below the last of a path. */
  ghost predicate AllBelow(path: seq<int>, paths: seq<seq<int>>) { forall k :: 0 <= k < |paths| ==> path <= paths[k] }

  ghost predicate AllBranch(path: seq<int>, kids: seq<int>, i: nat, paths: seq<seq<int>>) {
    forall k :: 0 <= k < |paths| ==> Branch(path, kids, i, paths[k])
  }

  lemma ParentFirst(rows: seq<Info>, path: seq<int>, line: Line, rest: seq<Line>, kids: seq<int>, below: seq<seq<int>>)
    requires Draws(rows, line, path) && Shape(rows, rest, below) && AllBranch(path, kids, 0, below)
    ensures Shape(rows, [line] + rest, [path] + below) && AllBelow(path, [path] + below)
  {
    JoinShapes(rows, [line], rest, [path], below);
  }

  lemma SiblingsInTurn(rows: seq<Info>, path: seq<int>, kids: seq<int>, i: nat, prefix: seq<int>,
                       first: seq<Line>, rest: seq<Line>, here: seq<seq<int>>, later: seq<seq<int>>)
    requires Brood(rows, path, kids, prefix) && i < |kids|
    requires Shape(rows, first, here) && AllBelow(path + [kids[i]], here)
    requires Shape(rows, rest, later) && AllBranch(path, kids, i + 1, later)
    ensures Shape(rows, first + rest, here + later) && AllBranch(path, kids, i, here + later)
  {
    var step := path + [kids[i]];
    forall j, k | 0 <= j < |here| && 0 <= k < |later|
      ensures Sooner(rows, here[j], later[k])
    {
      BranchesApart(rows, path, kids, i, here[j], later[k]);
    }
    JoinShapes(rows, first, rest, here, later);
    forall k | 0 <= k < |here|
      ensures Branch(path, kids, i, here[k])
    {
      assert here[k][|path|] == step[|path|] == kids[i] && here[k][..|path|] == step[..|path|] == path;
    }
  }

  lemma WalkStep(rows: seq<Info>, p: int, n: nat, last: bool, prefix: seq<int>, room: nat)
    requires n > 0 && room > 0 && Has(rows, p)
    ensures Walk(rows, p, n - 1, last, prefix, room)
         == [Line(prefix + Glyph(n - 1, last), p)] + WalkAll(rows, KidsOf(rows, p), 0, n, ChildPrefix(n - 1, last, prefix), room - 1)
  {
  }

  /** The walk from a process of the sample, given that over its children. */
  lemma WalkShapeStep(rows: seq<Info>, path: seq<int>, last: bool, prefix: seq<int>, room: nat, below: seq<seq<int>>)
    requires Entered(rows, path, last, prefix) && room > 0 && Has(rows, Last(path))
    requires Shape(rows, WalkAll(rows, KidsOf(rows, Last(path)), 0, |path|, ChildPrefix(|path| - 1, last, prefix), room - 1), below)
    requires AllBranch(path, KidsOf(rows, Last(path)), 0, below)
    ensures Shape(rows, Walk(rows, Last(path), |path| - 1, last, prefix, room), [path] + below) && AllBelow(path, [path] + below)
  {
    var p, depth: nat := Last(path), |path| - 1;
    var rest := WalkAll(rows, KidsOf(rows, p), 0, |path|, ChildPrefix(depth, last, prefix), room - 1);
    FirstLine(rows, path, last, prefix);
    ParentFirst(rows, path, Line(prefix + Glyph(depth, last), p), rest, KidsOf(rows, p), below);
    WalkStep(rows, p, |path|, last, prefix, room);
  }

  /** The walk over siblings, given those from one of them and over the others. */
  lemma WalkAllShapeStep(rows: seq<Info>, path: seq<int>, kids: seq<int>, i: nat, prefix: seq<int>, room: nat, first: seq<Line>,
                         here: seq<seq<int>>, later: seq<seq<int>>)
    requires Brood(rows, path, kids, prefix) && i < |kids|
    requires first == Walk(rows, kids[i], |path|, i + 1 == |kids|, prefix, room)
    requires Shape(rows, first, here) && AllBelow(path + [kids[i]], here)
    requires Shape(rows, WalkAll(rows, kids, i + 1, |path|, prefix, room - |first|), later) && AllBranch(path, kids, i + 1, later)
    ensures Shape(rows, WalkAll(rows, kids, i, |path|, prefix, room), here + later) && AllBranch(path, kids, i, here + later)
  {
    var rest := WalkAll(rows, kids, i + 1, |path|, prefix, room - |first|);
    SiblingsInTurn(rows, path, kids, i, prefix, first, rest, here, later);
    WalkAllStep(rows, kids, i, |path|, prefix, room);
  }

  lemma NothingToDraw(rows: seq<Info>, path: seq<int>, kids: seq<int>)
    ensures Shape(rows, [], []) && AllBelow(path, []) && AllBranch(path, kids, |kids|, [])
  {
  }

  lemma {:induction false} WalkShape(rows: seq<Info>, path: seq<int>, last: bool, prefix: seq<int>, room: nat) returns (paths: seq<seq<int>>)
    requires Sorted(rows) && Entered(rows, path, last, prefix)
    ensures Shape(rows, Walk(rows, Last(path), |path| - 1, last, prefix, room), paths) && AllBelow(path, paths)
    decreases room, 0
  {
    if room > 0 && Has(rows, Last(path)) {
      NextBrood(rows, path, last, prefix);
      var below := WalkAllShape(rows, path, KidsOf(rows, Last(path)), 0, ChildPrefix(|path| - 1, last, prefix), room - 1);
      WalkShapeStep(rows, path, last, prefix, room, below);
      paths := [path] + below;
    } else {
      NothingToDraw(rows, path, []);
      paths := [];
      assert Walk(rows, Last(path), |path| - 1, last, prefix, room) == [];
    }
  }

  lemma {:induction false} WalkAllShape(rows: seq<Info>, path: seq<int>, kids: seq<int>, i: nat, prefix: seq<int>, room: nat) returns (paths: seq<seq<int>>)
    requires Sorted(rows) && Brood(rows, path, kids, prefix) && i <= |kids|
    ensures Shape(rows, WalkAll(rows, kids, i, |path|, prefix, room), paths) && AllBranch(path, kids, i, paths)
    decreases room, |kids| - i + 1
  {
    if i < |kids| {
      var first := Walk(rows, kids[i], |path|, i + 1 == |kids|, prefix, room);
      EnterKid(rows, path, kids, i, prefix);
      var step := path + [kids[i]];
      assert Last(step) == kids[i] && |step| - 1 == |path|;
      var here := WalkShape(rows, step, i + 1 == |kids|, prefix, room);
      var later := WalkAllShape(rows, path, kids, i + 1, prefix, room - |first|);
      WalkAllShapeStep(rows, path, kids, i, prefix, room, first, here, later);
      paths := here + later;
    } else {
      NothingToDraw(rows, path, kids);
      paths := [];
      assert WalkAll(rows, kids, i, |path|, prefix, room) == [];
    }
  }

  /**
   Each line of the tree view stands for a chain of parents down from a root. Its indent is one segment for each
   ancestor below the root, a bar exactly if that ancestor has a sibling further down, then a tee if the process
   itself has one and else a corner. The lines are in depth-first order, siblings in PID order, whatever the
   parents in the sample and the height.
   */
  lemma TreeIsDrawn(rows: seq<Info>, room: nat) returns (paths: seq<seq<int>>)
    requires Sorted(rows)
    ensures Shape(rows, OnScreen(rows, room), paths)
  {
    RootsAreBrood(rows);
    paths := WalkAllShape(rows, [], Roots(rows), 0, [], room);
  }
}
