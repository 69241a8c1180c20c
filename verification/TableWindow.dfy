/** When the scroll window of the process table is full, told before the redraw; and a run after which it is not. */
module TableWindow {
  import opened Sample
  import opened Sorting
  import opened ProcessTable

  // ---- The place of a row in the table is the number of rows that go before it ----

  /** It uses more CPU, or as much and has the lower PID. */
  predicate Ahead(q: Info, p: Info) {
    q.cpuPercent > p.cpuPercent || (q.cpuPercent == p.cpuPercent && q.pid < p.pid)
  }

  function Before(rows: seq<Info>, p: Info): nat {
    if rows == [] then 0 else Before(rows[1..], p) + if Ahead(rows[0], p) then 1 else 0
  }

  lemma {:induction false} BeforeConcat(a: seq<Info>, b: seq<Info>, p: Info)
    ensures Before(a + b, p) == Before(a, p) + Before(b, p)
  {
    if a == [] {
      assert a + b == b;
    } else {
      assert (a + b)[1..] == a[1..] + b;
      BeforeConcat(a[1..], b, p);
    }
  }

  lemma BeforeRemoved(b: seq<Info>, j: nat, p: Info)
    requires j < |b|
    ensures Before(b, p) == Before(b[..j] + b[j + 1..], p) + if Ahead(b[j], p) then 1 else 0
    ensures multiset(b[..j] + b[j + 1..]) == multiset(b) - multiset{b[j]}
  {
    assert b == b[..j] + ([b[j]] + b[j + 1..]);
    BeforeConcat(b[..j], [b[j]] + b[j + 1..], p);
    BeforeConcat(b[..j], b[j + 1..], p);
    assert ([b[j]] + b[j + 1..])[1..] == b[j + 1..];
  }

  lemma {:induction false} BeforePermuted(a: seq<Info>, b: seq<Info>, p: Info)
    requires multiset(a) == multiset(b)
    ensures Before(a, p) == Before(b, p)
  {
    SameElements(a, b);
    if a != [] {
      assert a[0] in b;
      var j :| 0 <= j < |b| && b[j] == a[0];
      BeforeRemoved(b, j, p);
      WithoutFirst(a);
      BeforePermuted(a[1..], b[..j] + b[j + 1..], p);
    }
  }

  lemma {:induction false} BeforeAll(rows: seq<Info>, p: Info)
    requires forall i :: 0 <= i < |rows| ==> Ahead(rows[i], p)
    ensures Before(rows, p) == |rows|
  {
    if rows != [] {
      BeforeAll(rows[1..], p);
    }
  }

  lemma {:induction false} BeforeNone(rows: seq<Info>, p: Info)
    requires forall i :: 0 <= i < |rows| ==> !Ahead(rows[i], p)
    ensures Before(rows, p) == 0
  {
    if rows != [] {
      BeforeNone(rows[1..], p);
    }
  }

  lemma BeforeSplits(table: seq<Info>, k: nat)
    requires k < |table|
    requires forall i :: 0 <= i < k ==> Ahead(table[i], table[k])
    requires forall i :: k <= i < |table| ==> !Ahead(table[i], table[k])
    ensures Before(table, table[k]) == k
  {
    assert table == table[..k] + table[k..];
    BeforeConcat(table[..k], table[k..], table[k]);
    BeforeAll(table[..k], table[k]);
    BeforeNone(table[k..], table[k]);
  }

  lemma PlaceInTable(rows: seq<Info>, k: nat)
    requires Sorted(rows) && k < |rows|
    ensures Before(rows, Table(rows)[k]) == k
  {
    var table := Table(rows);
    forall i | 0 <= i < |table|
      ensures i < k <==> Ahead(table[i], table[k])
    {
      TableAround(rows, i, k);
    }
    BeforeSplits(table, k);
    BeforePermuted(rows, table, table[k]);
  }

  lemma TableAround(rows: seq<Info>, i: nat, k: nat)
    requires Sorted(rows) && i < |rows| && k < |rows|
    ensures i < k <==> Ahead(Table(rows)[i], Table(rows)[k])
  {
    TableIsUnique(rows, Table(rows));
  }

  // ---- The window ----

  /** The row that will be selected: where the process goes if it is still there, else the old index, clamped. */
  ghost function Kept(ui: Ui, rows: seq<Info>): nat
    requires rows != []
  {
    if SelectedPid(ui) > 0 && Has(rows, SelectedPid(ui)) then Before(rows, rows[Position(rows, SelectedPid(ui))])
    else Min(ui.selected, |rows| - 1)
  }

  lemma RowOfPid(rows: seq<Info>, k: nat)
    requires Sorted(rows) && k < |rows|
    ensures Has(rows, Displayed(rows)[k]) && rows[Position(rows, Displayed(rows)[k])] == Table(rows)[k]
  {
    CompareIsOrder();
    SortSorts(ByCpu, rows);
    SameElements(rows, Table(rows));
    assert Table(rows)[k] in rows;
    var i :| 0 <= i < |rows| && rows[i] == Table(rows)[k];
    PositionIs(rows, i);
  }

  lemma SelectedIsKept(ui: Ui, rows: seq<Info>)
    requires Sorted(rows) && rows != []
    ensures DrawList(ui, rows).selected == Kept(ui, rows)
  {
    SelectionFollows(ui, rows);
    DisplayedIsTheSample(rows);
    var k := DrawList(ui, rows).selected;
    PlaceInTable(rows, k);
    RowOfPid(rows, k);
  }

  lemma ScreenIs(pids: seq<int>, selected: nat, scroll: nat, visible: nat)
    ensures var screen := Screen(pids, selected, scroll, visible);
            && |screen| == Min(visible, if scroll < |pids| then |pids| - scroll else 0)
            && forall k :: 0 <= k < |screen| ==> screen[k] == Shown(pids[scroll + k], scroll + k == selected)
  {
  }

  lemma PlaceOfDisplayed(rows: seq<Info>, k: nat)
    requires Sorted(rows) && k < |rows|
    ensures Has(rows, Displayed(rows)[k]) && Before(rows, rows[Position(rows, Displayed(rows)[k])]) == k
  {
    RowOfPid(rows, k);
    PlaceInTable(rows, k);
  }

  /**
   The screen has as many rows as fit and are left from the first row of the window on, each is the process that
   as many others go before as its place says, and the selected one is highlighted.
   */
  lemma ScreenIsTheTable(ui: Ui, rows: seq<Info>)
    requires Sorted(rows)
    ensures var next := DrawList(ui, rows);
            && |next.screen| == Min(Min(if ui.height > 9 then ui.height - 9 else 0, |rows|),
                                    if next.scroll < |rows| then |rows| - next.scroll else 0)
            && (forall k :: 0 <= k < |next.screen| ==>
                  && next.screen[k].highlighted == (next.scroll + k == next.selected)
                  && Has(rows, next.screen[k].pid)
                  && Before(rows, rows[Position(rows, next.screen[k].pid)]) == next.scroll + k)
  {
    DisplayedIsTheSample(rows);
    var next := DrawList(ui, rows);
    ScreenIs(next.pids, next.selected, next.scroll, Visible(ui.height, |rows|));
    forall k | 0 <= k < |next.screen|
      ensures Has(rows, next.screen[k].pid) && Before(rows, rows[Position(rows, next.screen[k].pid)]) == next.scroll + k
    {
      PlaceOfDisplayed(rows, next.scroll + k);
    }
  }

  /** The window moves no further than it must: any other that has the selected row in it is as far away, at least. */
  lemma ScrollMovesLeast(ui: Ui, rows: seq<Info>, other: nat)
    ensures var next, visible := DrawList(ui, rows), Visible(ui.height, |rows|);
            && (other <= next.selected < other + visible ==> Away(ui.scroll, next.scroll) <= Away(ui.scroll, other))
            && (visible == 0 ==> next.scroll == next.selected)
  {
    DisplayedAreTheRows(rows);
  }

  function Away(a: nat, b: nat): nat { if a < b then b - a else a - b }

  /** The window is full exactly if enough rows are left from the smaller of its old first row and the selected one. */
  lemma WindowIsFull(ui: Ui, rows: seq<Info>)
    requires Sorted(rows) && rows != []
    ensures |DrawList(ui, rows).screen| == Visible(ui.height, |rows|) <==>
      Min(ui.scroll, Kept(ui, rows)) + Visible(ui.height, |rows|) <= |rows|
  {
    SelectionFollows(ui, rows);
    SelectedIsKept(ui, rows);
    DisplayedIsTheSample(rows);
  }

  // ---- Runs that leave the window under-full ----

  /** n processes, none of which uses the CPU. */
  function Idle(n: nat): (rows: seq<Info>)
    ensures |rows| == n && forall k :: 0 <= k < n ==> rows[k].pid == k + 1 && rows[k].cpuPercent == 0.0
  {
    seq(n, k => Info(k + 1, 0, "", 0, 0, 0, 0, 0.0, 0.0, 0.0))
  }

  lemma IdleTable(n: nat)
    ensures Sorted(Idle(n)) && |Displayed(Idle(n))| == n
    ensures forall k :: 0 <= k < n ==> Displayed(Idle(n))[k] == k + 1
  {
    TableIsUnique(Idle(n), Idle(n));
  }

  lemma OneMoreTurn(tr: seq<Ui>, turns: seq<Turn>, t: Turn) returns (tr': seq<Ui>, turns': seq<Turn>)
    requires Run(tr, turns) && Possible(t)
    ensures Run(tr', turns') && |turns'| == |turns| + 1 && turns'[|turns|] == t && tr'[|turns'|] == Do(tr[|turns|], t)
  {
    tr', turns' := tr + [Do(tr[|turns|], t)], turns + [t];
  }

  /** The list of n idle processes on a screen with two rows for it. */
  ghost predicate Shows(ui: Ui, n: nat, selected: nat, scroll: nat) {
    && ui.view == ProcessList && ui.height == 11
    && |ui.pids| == n && (forall k :: 0 <= k < n ==> ui.pids[k] == k + 1)
    && ui.selected == selected < n && ui.scroll == scroll
  }

  /** A redraw of the same list leaves the selection alone and scrolls to it. */
  lemma SameList(ui: Ui, n: nat, selected: nat, scroll: nat, rows: seq<Info>)
    requires n >= 2 && Shows(ui, n, selected, scroll) && rows == Idle(n)
    ensures Shows(Draw(ui, 11, rows), n, selected, Scrolled(scroll, selected, 2))
  {
    IdleTable(n);
    SelectionFollows(ui.(height := 11), rows);
    assert ui.pids[selected] == selected + 1 == rows[selected].pid;
  }

  lemma FirstList(ui: Ui, n: nat, rows: seq<Info>)
    requires n >= 2 && ui == Ui(ProcessList, 0, 0, [], 11, []) && rows == Idle(n)
    ensures Shows(Draw(ui, 11, rows), n, 0, 0)
  {
    IdleTable(n);
    SelectionFollows(ui, rows);
  }

  lemma {:induction false} GoDown(n: nat, k: nat, rows: seq<Info>) returns (tr: seq<Ui>, turns: seq<Turn>)
    requires n >= 2 && k < n && rows == Idle(n)
    ensures Run(tr, turns) && Shows(tr[|turns|], n, k, if k == 0 then 0 else k - 1)
  {
    IdleTable(n);
    if k == 0 {
      var start := Ui(ProcessList, 0, 0, [], 11, []);
      tr, turns := [start], [];
      FirstList(start, n, rows);
      tr, turns := OneMoreTurn(tr, turns, Turn(Other, true, 11, rows));
    } else {
      tr, turns := GoDown(n, k - 1, rows);
      var ui := tr[|turns|];
      SameList(Press(ui, Down), n, k, ui.scroll, rows);
      tr, turns := OneMoreTurn(tr, turns, Turn(Down, true, 11, rows));
    }
  }

  lemma UpOnce(n: nat, rows: seq<Info>) returns (tr: seq<Ui>, turns: seq<Turn>)
    requires n >= 4 && rows == Idle(n)
    ensures Run(tr, turns) && Shows(tr[|turns|], n, n - 2, n - 2)
  {
    IdleTable(n);
    tr, turns := GoDown(n, n - 1, rows);
    SameList(Press(tr[|turns|], Up), n, n - 2, n - 2, rows);
    tr, turns := OneMoreTurn(tr, turns, Turn(Up, true, 11, rows));
  }

  lemma ShrunkScreen(pids: seq<int>, m: nat)
    requires |pids| == m >= 2
    ensures Scrolled(m, m - 1, 2) == m - 1 && |Screen(pids, m - 1, m - 1, 2)| == 1
  {
  }

  /** The last two processes go away while the one before the last is selected. */
  lemma ListShrinks(ui: Ui, n: nat, rows: seq<Info>)
    requires n >= 4 && Shows(ui, n, n - 2, n - 2) && rows == Idle(n - 2)
    ensures |Do(ui, Turn(Other, true, 11, rows)).screen| == 1
  {
    var m, sized, next := n - 2, ui.(height := 11), DrawList(ui.(height := 11), rows);
    IdleTable(m);
    assert SelectedPid(sized) == n - 1 && !Has(rows, n - 1);
    SelectionFollows(sized, rows);
    assert next.selected == m - 1;
    ShrunkScreen(next.pids, m);
  }

  /**
   n processes, n - 1 times down and once up, and then the last two are gone: there is room for two rows,
   there are n - 2, and one is shown.
   */
  lemma WindowMayBeUnderFull(n: nat) returns (tr: seq<Ui>, turns: seq<Turn>)
    requires n >= 4
    ensures Run(tr, turns) && turns != [] && turns[|turns| - 1] == Turn(Other, true, 11, Idle(n - 2))
    ensures |tr[|turns|].screen| == 1 < Visible(11, |Idle(n - 2)|)
  {
    var before, sofar := UpOnce(n, Idle(n));
    IdleTable(n - 2);
    ListShrinks(before[|sofar|], n, Idle(n - 2));
    tr, turns := OneMoreTurn(before, sofar, Turn(Other, true, 11, Idle(n - 2)));
  }
}
