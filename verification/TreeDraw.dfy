/**
 The tree view of src/ui/ui.c: a depth-first walk with a cut-off at the last row and one prefix buffer
 shared by all levels. Output is the sequence of lines; text is in bytes, as the buffer is.
 */
module TreeDraw {
  import opened Sample
  import opened ProcessTree
  import opened Buffers

  const PREFIX_MAX: nat := 512

  /** "│  ", "   ", "├─ " and "└─ " in UTF-8. */
  const BAR: seq<int> := [226, 148, 130, 32, 32]
  const BLANK: seq<int> := [32, 32, 32]
  const TEE: seq<int> := [226, 148, 156, 226, 148, 128, 32]
  const CORNER: seq<int> := [226, 148, 148, 226, 148, 128, 32]

  datatype Line = Line(indent: seq<int>, pid: int)

  function Glyph(depth: nat, last: bool): seq<int> {
    if depth > 0 then (if last then CORNER else TEE) else []
  }

  /** The prefix of the children: one segment more, if it fits. */
  function ChildPrefix(depth: nat, last: bool, prefix: seq<int>): (r: seq<int>)
    ensures |prefix| < PREFIX_MAX ==> |r| < PREFIX_MAX
    ensures prefix <= r
  {
    var segment := if last then BLANK else BAR;
    if depth > 0 && |prefix| + |segment| < PREFIX_MAX then prefix + segment else prefix
  }

  /** The first `room` lines of the walk from one process, whatever the shape of the sample. */
  ghost function Walk(rows: seq<Info>, pid: int, depth: nat, last: bool, prefix: seq<int>, room: nat): (r: seq<Line>)
    ensures |r| <= room
    decreases room, 0
  {
    if room == 0 || !Has(rows, pid) then []
    else [Line(prefix + Glyph(depth, last), pid)]
         + WalkAll(rows, KidsOf(rows, pid), 0, depth + 1, ChildPrefix(depth, last, prefix), room - 1)
  }

  /** The same for the siblings from number i on. */
  ghost function WalkAll(rows: seq<Info>, kids: seq<int>, i: nat, depth: nat, prefix: seq<int>, room: nat): (r: seq<Line>)
    requires i <= |kids|
    ensures |r| <= room
    decreases room, |kids| - i
  {
    if i == |kids| then []
    else
      var first := Walk(rows, kids[i], depth, i + 1 == |kids|, prefix, room);
      first + WalkAll(rows, kids, i + 1, depth, prefix, room - |first|)
  }

  function Room(row: int, maxRow: int): nat { if row < maxRow then maxRow - row else 0 }

  class View {
    var screen: seq<Line>
    var row: int
    const prefix: array<int>

    ghost predicate Shape()
      reads this
    {
      prefix.Length == PREFIX_MAX
    }

    /** The string in the prefix buffer: its bytes up to the first zero. */
    ghost predicate PrefixIs(s: seq<int>)
      requires Shape()
      reads this, prefix
    {
      && |s| < PREFIX_MAX && prefix[|s|] == 0
      && forall i :: 0 <= i < |s| ==> prefix[i] == s[i] && s[i] != 0
    }

    constructor ()
      ensures Shape() && screen == [] && row == 2 && fresh(prefix)
    {
      prefix := new int[PREFIX_MAX];
      screen, row := [], 2;
    }

    /** Copy the prefix string out of the buffer, as "%s" does. */
    method ReadPrefix(ghost s: seq<int>) returns (r: seq<int>)
      requires Shape() && PrefixIs(s)
      ensures r == s
    {
      var n := 0;
      while prefix[n] != 0
        invariant 0 <= n <= |s|
        decreases |s| - n
      {
        n := n + 1;
      }
      r := prefix[..n];
    }

    /** Extend the prefix string for the children, if there is room for one segment more. */
    method Extend(ghost s: seq<int>, length: nat, depth: nat, last: bool) returns (longer: nat)
      requires Shape() && PrefixIs(s) && length == |s|
      modifies prefix
      ensures PrefixIs(ChildPrefix(depth, last, s)) && longer == |ChildPrefix(depth, last, s)|
    {
      longer := length;
      if depth > 0 {
        var segment := if last then BLANK else BAR;
        if length + |segment| < PREFIX_MAX {
          forall i | 0 <= i < |segment| {
            prefix[length + i] := segment[i];
          }
          longer := length + |segment|;
          prefix[longer] := 0;
        }
      }
    }

    /** The buffer is nobody else's. */
    ghost predicate Private(tree: Tree)
      reads tree
    {
      && (prefix as object) != tree.childStart && (prefix as object) != tree.childCount
      && prefix != tree.childPids && prefix != tree.roots
    }

    /** What the drawing methods need of the tree: it is built from this sample, and untouched by drawing. */
    ghost predicate Draws(tree: Tree, rows: seq<Info>)
      reads tree, tree.rows, tree.childStart, tree.childCount, tree.childPids, tree.roots
    {
      Private(tree) && tree.Valid() && tree.Sample() == rows
    }

    /** draw_tree_recursive: `s` is the prefix string, restored on return, and `lines` what is to be drawn. */
    method Draw(tree: Tree, pid: int, depth: nat, maxRow: int, last: bool, length: nat,
                ghost rows: seq<Info>, ghost s: seq<int>, ghost lines: seq<Line>)
      requires Draws(tree, rows) && Shape() && PrefixIs(s) && length == |s|
      requires lines == Walk(rows, pid, depth, last, s, Room(row, maxRow))
      modifies this, prefix
      ensures Draws(tree, rows) && PrefixIs(s)
      ensures screen == old(screen) + lines && row == old(row) + |lines|
      decreases Room(row, maxRow), 1
    {
      ghost var rest := WalkParts(rows, pid, depth, last, s, Room(row, maxRow), lines);
      Regroup(screen, [Line(s + Glyph(depth, last), pid)], rest);
      if row < maxRow {
        var found := tree.Find(pid);
        if found {
          DrawFound(tree, pid, depth, maxRow, last, length, rows, s, rest);
        }
      }
    }

    /** The line of the process itself, and then its children. */
    method DrawFound(tree: Tree, pid: int, depth: nat, maxRow: int, last: bool, length: nat,
                     ghost rows: seq<Info>, ghost s: seq<int>, ghost rest: seq<Line>)
      requires Draws(tree, rows) && Shape() && PrefixIs(s) && length == |s| && row < maxRow && Has(rows, pid)
      requires rest == WalkAll(rows, KidsOf(rows, pid), 0, depth + 1, ChildPrefix(depth, last, s), Room(row, maxRow) - 1)
      modifies this, prefix
      ensures Draws(tree, rows) && PrefixIs(s)
      ensures screen == old(screen) + [Line(s + Glyph(depth, last), pid)] + rest && row == old(row) + 1 + |rest|
      decreases Room(row, maxRow), 0
    {
      ghost var room := Room(row, maxRow) - 1;
      Print(pid, depth, last, s);
      assert Room(row, maxRow) == room;
      var start, kidCount := tree.Children(pid);
      assert screen + [] == screen;
      if kidCount > 0 {
        DrawKids(tree, start, kidCount, depth, maxRow, last, length, rows, s, KidsOf(rows, pid), rest);
      }
    }

    /** One line; the buffer for its indent holds 519 bytes, and it always fits. */
    method Print(pid: int, depth: nat, last: bool, ghost s: seq<int>)
      requires Shape() && PrefixIs(s)
      modifies this
      ensures PrefixIs(s) && row == old(row) + 1 && screen == old(screen) + [Line(s + Glyph(depth, last), pid)]
    {
      var text := ReadPrefix(s);
      screen := screen + [Line(Cut(text + Glyph(depth, last), PREFIX_MAX + 8 - 1), pid)];
      row := row + 1;
    }

    /** The loop over the children, with the prefix extended for them and then handed back. */
    method DrawKids(tree: Tree, start: nat, kidCount: nat, depth: nat, maxRow: int, last: bool, length: nat,
                    ghost rows: seq<Info>, ghost s: seq<int>, ghost kids: seq<int>, ghost lines: seq<Line>)
      requires Draws(tree, rows) && Shape() && PrefixIs(s) && length == |s|
      requires start + kidCount <= tree.childPids.Length && tree.childPids[start..start + kidCount] == kids
      requires lines == WalkAll(rows, kids, 0, depth + 1, ChildPrefix(depth, last, s), Room(row, maxRow))
      modifies this, prefix
      ensures Draws(tree, rows) && PrefixIs(s)
      ensures screen == old(screen) + lines && row == old(row) + |lines|
      decreases Room(row, maxRow), 4
    {
      var childLength := Extend(s, length, depth, last);
      DrawAll(tree, start, kidCount, depth + 1, maxRow, childLength, rows, ChildPrefix(depth, last, s), kids, lines);
      prefix[length] := 0;
    }

    method DrawAll(tree: Tree, start: nat, kidCount: nat, depth: nat, maxRow: int, length: nat,
                   ghost rows: seq<Info>, ghost s: seq<int>, ghost kids: seq<int>, ghost lines: seq<Line>)
      requires Draws(tree, rows) && Shape() && PrefixIs(s) && length == |s|
      requires start + kidCount <= tree.childPids.Length && tree.childPids[start..start + kidCount] == kids
      requires lines == WalkAll(rows, kids, 0, depth, s, Room(row, maxRow))
      modifies this, prefix
      ensures Draws(tree, rows) && PrefixIs(s)
      ensures screen == old(screen) + lines && row == old(row) + |lines|
      decreases Room(row, maxRow), 3
    {
      ghost var rest := lines;
      for i := 0 to kidCount
        invariant Draws(tree, rows) && PrefixIs(s)
        invariant rest == WalkAll(rows, kids, i, depth, s, Room(row, maxRow))
        invariant screen + rest == old(screen) + lines && row + |rest| == old(row) + |lines| && row >= old(row)
      {
        rest := DrawOne(tree, tree.childPids[start + i], depth, maxRow, i + 1 == kidCount, length, rows, s, kids, i, rest);
      }
      assert screen + [] == screen;
    }

    /** The loop over the roots, which stops early when the last row is reached. */
    method DrawRoots(tree: Tree, maxRow: int, ghost rows: seq<Info>, ghost roots: seq<int>)
      requires Draws(tree, rows) && Shape() && PrefixIs([]) && roots == Roots(rows)
      modifies this, prefix
      ensures screen == old(screen) + WalkAll(rows, roots, 0, 0, [], Room(old(row), maxRow))
    {
      ghost var lines := WalkAll(rows, roots, 0, 0, [], Room(row, maxRow));
      ghost var rest := lines;
      var i := 0;
      while i < tree.rootCount && row < maxRow
        invariant 0 <= i <= tree.rootCount && Draws(tree, rows) && PrefixIs([])
        invariant rest == WalkAll(rows, roots, i, 0, [], Room(row, maxRow))
        invariant screen + rest == old(screen) + lines
      {
        rest := DrawOne(tree, tree.roots[i], 0, maxRow, i + 1 == tree.rootCount, 0, rows, [], roots, i, rest);
        i := i + 1;
      }
      if i < tree.rootCount {
        NoRoom(rows, roots, i, 0, []);
      }
      assert screen + [] == screen;
    }

    /** The call for sibling number i, and what is left for the others. */
    method DrawOne(tree: Tree, pid: int, depth: nat, maxRow: int, last: bool, length: nat,
                   ghost rows: seq<Info>, ghost s: seq<int>, ghost kids: seq<int>, ghost i: nat, ghost lines: seq<Line>)
      returns (ghost rest: seq<Line>)
      requires Draws(tree, rows) && Shape() && PrefixIs(s) && length == |s|
      requires i < |kids| && pid == kids[i] && last == (i + 1 == |kids|)
      requires lines == WalkAll(rows, kids, i, depth, s, Room(row, maxRow))
      modifies this, prefix
      ensures Draws(tree, rows) && PrefixIs(s)
      ensures rest == WalkAll(rows, kids, i + 1, depth, s, Room(row, maxRow))
      ensures screen + rest == old(screen) + lines && row + |rest| == old(row) + |lines| && row >= old(row)
      decreases Room(row, maxRow), 2
    {
      ghost var room := Room(row, maxRow);
      ghost var first := Walk(rows, pid, depth, last, s, room);
      rest := WalkAll(rows, kids, i + 1, depth, s, room - |first|);
      WalkAllStep(rows, kids, i, depth, s, room);
      Regroup(screen, first, rest);
      Draw(tree, pid, depth, maxRow, last, length, rows, s, first);
      assert Room(row, maxRow) == room - |first|;
    }
  }

  /** draw_process_tree, on a terminal of the given height. */
  method DrawProcessTree(processes: array<Info>, count: nat, termHeight: int) returns (screen: seq<Line>)
    requires count <= processes.Length && Ordered(processes[..count])
    ensures screen == WalkAll(processes[..count], Roots(processes[..count]), 0, 0, [], Room(2, termHeight - 10))
  {
    var view := new View();
    var tree := new Tree(processes, count);
    tree.Build();
    view.prefix[0] := 0;
    view.DrawRoots(tree, termHeight - 10, processes[..count], Roots(processes[..count]));
    screen := view.screen;
  }

  /** With no room left nothing more is drawn. */
  lemma {:induction false} NoRoom(rows: seq<Info>, kids: seq<int>, i: nat, depth: nat, prefix: seq<int>)
    requires i <= |kids|
    ensures WalkAll(rows, kids, i, depth, prefix, 0) == []
    decreases |kids| - i
  {
    if i < |kids| {
      NoRoom(rows, kids, i + 1, depth, prefix);
    }
  }

  lemma WalkParts(rows: seq<Info>, pid: int, depth: nat, last: bool, prefix: seq<int>, room: nat, lines: seq<Line>) returns (rest: seq<Line>)
    requires lines == Walk(rows, pid, depth, last, prefix, room)
    ensures room == 0 || !Has(rows, pid) ==> lines == []
    ensures room > 0 && Has(rows, pid) ==>
      && lines == [Line(prefix + Glyph(depth, last), pid)] + rest
      && rest == WalkAll(rows, KidsOf(rows, pid), 0, depth + 1, ChildPrefix(depth, last, prefix), room - 1)
  {
    rest := if room > 0 then WalkAll(rows, KidsOf(rows, pid), 0, depth + 1, ChildPrefix(depth, last, prefix), room - 1) else [];
  }

  lemma WalkAllStep(rows: seq<Info>, kids: seq<int>, i: nat, depth: nat, prefix: seq<int>, room: nat)
    requires i < |kids|
    ensures var first := Walk(rows, kids[i], depth, i + 1 == |kids|, prefix, room);
            WalkAll(rows, kids, i, depth, prefix, room)
            == first + WalkAll(rows, kids, i + 1, depth, prefix, room - |first|)
  {
  }

  lemma Regroup<T>(a: seq<T>, b: seq<T>, c: seq<T>)
    ensures a + b + c == a + (b + c)
  {
  }
}
