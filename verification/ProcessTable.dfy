/**
 The process table of src/ui/ui.c: its order, the selection that follows a process through redraws, and
 the scroll window; and the main loop of src/main.c as far as it moves and draws them.
 */
module ProcessTable {
  import opened Sample
  import opened Sorting

  // ---- Order ----

  /** compare_by_cpu. */
  function CompareByCpu(a: Info, b: Info): int {
    if a.cpuPercent > b.cpuPercent then -1
    else if a.cpuPercent < b.cpuPercent then 1
    else if a.pid < b.pid then -1
    else if a.pid > b.pid then 1 else 0
  }

  const ByCpu: (Info, Info) -> bool := (a, b) => CompareByCpu(a, b) <= 0

  /** The comparison is one that qsort may be given, and ties are left between rows of one PID only. */
  lemma CompareIsOrder()
    ensures TotalPreorder(ByCpu)
    ensures forall a, b :: CompareByCpu(a, b) == -CompareByCpu(b, a)
    ensures forall a, b :: CompareByCpu(a, b) == 0 <==> a.cpuPercent == b.cpuPercent && a.pid == b.pid
  {
  }

  function Table(rows: seq<Info>): seq<Info> { Sort(ByCpu, rows) }

  lemma RowsToldApart(rows: seq<Info>)
    requires Sorted(rows)
    ensures ToldApart(ByCpu, rows)
  {
    forall a, b | a in rows && b in rows && ByCpu(a, b) && ByCpu(b, a)
      ensures a == b
    {
      var i :| 0 <= i < |rows| && rows[i] == a;
      var j :| 0 <= j < |rows| && rows[j] == b;
      assert a.pid == b.pid;
      PositionIs(rows, i);
      PositionIs(rows, j);
    }
  }

  /** In CPU order falling, and among equals in PID order rising. */
  ghost predicate Falls(r: seq<Info>) {
    forall i, j :: 0 <= i < j < |r| ==>
      r[i].cpuPercent > r[j].cpuPercent || (r[i].cpuPercent == r[j].cpuPercent && r[i].pid < r[j].pid)
  }

  lemma FallingIsInOrder(rows: seq<Info>, r: seq<Info>)
    requires Sorted(rows) && multiset(r) == multiset(rows)
    ensures InOrder(ByCpu, r) <==> Falls(r)
  {
    PermutedIsDistinct(rows, r);
    if InOrder(ByCpu, r) {
      forall i, j | 0 <= i < j < |r|
        ensures r[i].cpuPercent > r[j].cpuPercent || (r[i].cpuPercent == r[j].cpuPercent && r[i].pid < r[j].pid)
      {
        assert ByCpu(r[i], r[j]);
      }
    }
  }

  lemma PermutedIsDistinct(rows: seq<Info>, r: seq<Info>)
    requires Sorted(rows) && multiset(r) == multiset(rows)
    ensures forall i, j :: 0 <= i < j < |r| ==> r[i].pid != r[j].pid
  {
    SameElements(rows, r);
    DistinctCounts(rows);
    DistinctCounts(r);
    forall i, j | 0 <= i < j < |r|
      ensures r[i].pid != r[j].pid
    {
      assert r[i] in rows && r[j] in rows && r[i] != r[j];
    }
  }

  /** The table is the only permutation of the sample with CPU falling and, among equals, PIDs rising. */
  lemma TableIsUnique(rows: seq<Info>, r: seq<Info>)
    requires Sorted(rows)
    ensures r == Table(rows) <==>
      && multiset(r) == multiset(rows)
      && forall i, j :: 0 <= i < j < |r| ==>
           r[i].cpuPercent > r[j].cpuPercent || (r[i].cpuPercent == r[j].cpuPercent && r[i].pid < r[j].pid)
  {
    CompareIsOrder();
    SortSorts(ByCpu, rows);
    FallingIsInOrder(rows, Table(rows));
    if multiset(r) == multiset(rows) && Falls(r) {
      FallingIsInOrder(rows, r);
      RowsToldApart(rows);
      SameElements(rows, r);
      SortIsUnique(ByCpu, r, Table(rows));
    }
  }

  function Pids(rows: seq<Info>): (r: seq<int>)
    ensures |r| == |rows| && forall i :: 0 <= i < |r| ==> r[i] == rows[i].pid
  {
    seq(|rows|, i requires 0 <= i < |rows| => rows[i].pid)
  }

  function Displayed(rows: seq<Info>): seq<int> { Pids(Table(rows)) }

  /** Every row of the sample is displayed, and nothing else is. */
  lemma DisplayedAreTheRows(rows: seq<Info>)
    ensures |Displayed(rows)| == |rows|
    ensures forall pid :: pid in Displayed(rows) <==> Has(rows, pid)
  {
    CompareIsOrder();
    SortSorts(ByCpu, rows);
    SameElements(rows, Table(rows));
    var table := Table(rows);
    forall pid
      ensures pid in Displayed(rows) <==> Has(rows, pid)
    {
      if pid in Displayed(rows) {
        var i :| 0 <= i < |table| && Displayed(rows)[i] == pid;
        assert table[i] in rows;
      }
      if Has(rows, pid) {
        var i :| 0 <= i < |rows| && rows[i].pid == pid;
        assert rows[i] in table;
      }
    }
  }

  lemma DisplayedOnce(rows: seq<Info>)
    requires Sorted(rows)
    ensures |Displayed(rows)| == |rows|
    ensures forall i, j :: 0 <= i < j < |rows| ==> Displayed(rows)[i] != Displayed(rows)[j]
  {
    PermutedIsDistinct(rows, Table(rows));
  }

  /** The displayed PIDs are those of the sample, each once. */
  lemma DisplayedIsTheSample(rows: seq<Info>)
    requires Sorted(rows)
    ensures |Displayed(rows)| == |rows|
    ensures forall pid :: pid in Displayed(rows) <==> Has(rows, pid)
    ensures forall i, j :: 0 <= i < j < |rows| ==> Displayed(rows)[i] != Displayed(rows)[j]
  {
    DisplayedAreTheRows(rows);
    DisplayedOnce(rows);
  }

  /** Of two processes of the sample the one that uses more CPU is displayed first, and of equals the lower PID. */
  lemma BusiestFirst(rows: seq<Info>, i: nat, j: nat, p: Info, q: Info)
    requires Sorted(rows) && i < |rows| && j < |rows| && p in rows && q in rows
    requires Displayed(rows)[i] == p.pid && Displayed(rows)[j] == q.pid
    ensures i < j <==> p.cpuPercent > q.cpuPercent || (p.cpuPercent == q.cpuPercent && p.pid < q.pid)
  {
    TableIsUnique(rows, Table(rows));
    RowDisplayed(rows, i, p);
    RowDisplayed(rows, j, q);
  }

  lemma RowDisplayed(rows: seq<Info>, i: nat, p: Info)
    requires Sorted(rows) && i < |rows| && p in rows && Displayed(rows)[i] == p.pid
    ensures Table(rows)[i] == p
  {
    SameElements(rows, Table(rows));
    assert Table(rows)[i] in rows;
    var k :| 0 <= k < |rows| && rows[k] == p;
    var m :| 0 <= m < |rows| && rows[m] == Table(rows)[i];
    assert rows[k].pid == rows[m].pid;
  }

  /** Rows with the same CPU figure never swap places from one frame to the next. */
  lemma EqualRowsHoldStill(rows: seq<Info>, i: nat, j: nat)
    requires Sorted(rows) && i < |rows| && j < |rows| && Table(rows)[i].cpuPercent == Table(rows)[j].cpuPercent
    ensures i < j <==> Displayed(rows)[i] < Displayed(rows)[j]
  {
    TableIsUnique(rows, Table(rows));
  }

  // ---- Selection and scrolling, on values ----

  datatype ViewMode = ProcessList | ProcessDetail | ProcessTree | Events

  datatype Shown = Shown(pid: int, highlighted: bool)

  /** `screen` is the list as it was last drawn. */
  datatype Ui = Ui(view: ViewMode, selected: nat, scroll: nat, pids: seq<int>, height: int, screen: seq<Shown>)

  function SelectedPid(ui: Ui): int {
    if ui.selected < |ui.pids| then ui.pids[ui.selected] else -1
  }

  function Min(a: nat, b: nat): nat { if a < b then a else b }

  function Visible(height: int, count: nat): nat { Min(if height > 9 then height - 9 else 0, count) }

  /** The first position of a PID in the displayed order. */
  ghost function PlaceOf(pids: seq<int>, pid: int): (i: nat)
    requires pid in pids
    ensures i < |pids| && pids[i] == pid && pid !in pids[..i]
  {
    if pids[0] == pid then 0
    else
      assert pids == [pids[0]] + pids[1..];
      1 + PlaceOf(pids[1..], pid)
  }

  /** The selection on a new list: follow the process, else keep the index as far as it goes. */
  ghost function Follow(selected: nat, pid: int, pids: seq<int>): nat {
    if pid > 0 && pid in pids then PlaceOf(pids, pid)
    else if pids == [] then selected
    else Min(selected, |pids| - 1)
  }

  /** The least move of the window that has the selected row in it. */
  ghost function Scrolled(scroll: nat, selected: nat, visible: nat): nat {
    if scroll <= selected < scroll + visible then scroll
    else if selected < scroll || visible == 0 then selected
    else selected - visible + 1
  }

  ghost function Screen(pids: seq<int>, selected: nat, scroll: nat, visible: nat): seq<Shown> {
    var n := if scroll > |pids| then 0 else Min(visible, |pids| - scroll);
    seq(n, i requires 0 <= i < n => Shown(pids[scroll + i], scroll + i == selected))
  }

  ghost function DrawList(ui: Ui, rows: seq<Info>): Ui {
    var pids := Displayed(rows);
    var visible := Visible(ui.height, |pids|);
    var selected := Follow(ui.selected, SelectedPid(ui), pids);
    var scroll := Scrolled(ui.scroll, selected, visible);
    ui.(pids := pids, selected := selected, scroll := scroll, screen := Screen(pids, selected, scroll, visible))
  }

  ghost function Draw(ui: Ui, height: int, rows: seq<Info>): Ui {
    var sized := ui.(height := height);
    if ui.view.ProcessList? then DrawList(sized, rows) else sized
  }

  datatype UiKey = Up | Down | PageUp | PageDown | SetView(view: ViewMode) | Other

  ghost function Press(ui: Ui, key: UiKey): Ui {
    match key
    case Up => if ui.selected > 0 then ui.(selected := ui.selected - 1) else ui
    case Down => if ui.selected + 1 < |ui.pids| then ui.(selected := ui.selected + 1) else ui
    case PageUp => ui.(selected := if ui.selected >= 10 then ui.selected - 10 else 0)
    case PageDown => if ui.pids != [] then ui.(selected := Min(ui.selected + 10, |ui.pids| - 1)) else ui
    case SetView(view) => ui.(view := view, scroll := 0)
    case Other => ui
  }

  // ---- One redraw ----

  /** A selected process that is still there stays selected; otherwise the index is clamped into the list. */
  lemma SelectionFollows(ui: Ui, rows: seq<Info>)
    ensures SelectedPid(ui) > 0 && Has(rows, SelectedPid(ui)) ==> SelectedPid(DrawList(ui, rows)) == SelectedPid(ui)
    ensures !(SelectedPid(ui) > 0 && Has(rows, SelectedPid(ui))) && rows != [] ==>
      DrawList(ui, rows).selected == Min(ui.selected, |rows| - 1)
    ensures rows != [] ==> DrawList(ui, rows).selected < |rows| && Has(rows, SelectedPid(DrawList(ui, rows)))
    ensures rows == [] ==> DrawList(ui, rows).selected == ui.selected && SelectedPid(DrawList(ui, rows)) == -1
  {
    DisplayedAreTheRows(rows);
    var pids := Displayed(rows);
    assert rows != [] ==> pids[DrawList(ui, rows).selected] in pids;
  }

  /** The highlighted rows on the screen: one, that of the selected process, if any row fits. */
  ghost predicate ShowsSelection(ui: Ui) {
    && (forall i :: 0 <= i < |ui.screen| && ui.screen[i].highlighted ==> ui.screen[i].pid == SelectedPid(ui))
    && (forall i, j :: 0 <= i < j < |ui.screen| ==> !ui.screen[i].highlighted || !ui.screen[j].highlighted)
    && (Visible(ui.height, |ui.pids|) > 0 ==>
          ui.scroll <= ui.selected < ui.scroll + Visible(ui.height, |ui.pids|) && ui.selected - ui.scroll < |ui.screen|
          && ui.screen[ui.selected - ui.scroll].highlighted)
  }

  lemma ScrolledHasSelected(scroll: nat, selected: nat, visible: nat)
    ensures visible > 0 ==> Scrolled(scroll, selected, visible) <= selected < Scrolled(scroll, selected, visible) + visible
  {
  }

  lemma ScreenShowsSelection(ui: Ui, visible: nat)
    requires visible == Visible(ui.height, |ui.pids|) && ui.screen == Screen(ui.pids, ui.selected, ui.scroll, visible)
    requires visible > 0 ==> ui.scroll <= ui.selected < ui.scroll + visible && ui.selected < |ui.pids|
    ensures ShowsSelection(ui)
  {
    if visible > 0 {
      var n := |ui.screen|;
      assert n <= |ui.pids| - ui.scroll && ui.selected - ui.scroll < n;
      forall i | 0 <= i < n
        ensures ui.screen[i] == Shown(ui.pids[ui.scroll + i], ui.scroll + i == ui.selected)
      {
      }
    }
  }

  lemma WindowShowsSelection(ui: Ui, rows: seq<Info>)
    ensures ShowsSelection(DrawList(ui, rows))
  {
    SelectionFollows(ui, rows);
    DisplayedAreTheRows(rows);
    var next := DrawList(ui, rows);
    var visible := Visible(next.height, |next.pids|);
    ScrolledHasSelected(ui.scroll, next.selected, visible);
    ScreenShowsSelection(next, visible);
  }

  // ---- The main loop ----

  /** One turn of the loop: a key or none, and a frame or none; a key that was handled always gives a frame. */
  datatype Turn = Turn(key: UiKey, frame: bool, height: int, rows: seq<Info>)

  ghost predicate Possible(t: Turn) {
    t.key != Other ==> t.frame
  }

  ghost function Do(ui: Ui, t: Turn): Ui {
    var pressed := Press(ui, t.key);
    if t.frame then Draw(pressed, t.height, t.rows) else pressed
  }

  ghost predicate Run(tr: seq<Ui>, turns: seq<Turn>) {
    && |tr| == |turns| + 1
    && (exists height :: tr[0] == Ui(ProcessList, 0, 0, [], height, []))
    && (forall i {:trigger turns[i]} :: 0 <= i < |turns| ==> Possible(turns[i]))
    && (forall i {:trigger turns[i]} :: 0 <= i < |turns| ==> tr[i + 1] == Do(tr[i], turns[i]))
  }

  ghost predicate InRange(ui: Ui) { ui.pids != [] ==> ui.selected < |ui.pids| }

  ghost predicate Inv(ui: Ui) { InRange(ui) && (ui.view.ProcessList? ==> ShowsSelection(ui)) }

  lemma PressKeepsRange(ui: Ui, key: UiKey)
    requires InRange(ui)
    ensures InRange(Press(ui, key))
  {
  }

  lemma DrawKeepsInv(ui: Ui, height: int, rows: seq<Info>)
    requires InRange(ui)
    ensures Inv(Draw(ui, height, rows))
  {
    if ui.view.ProcessList? {
      var sized := ui.(height := height);
      SelectionFollows(sized, rows);
      WindowShowsSelection(sized, rows);
      DisplayedAreTheRows(rows);
    }
  }

  lemma TurnKeepsInv(ui: Ui, t: Turn)
    requires Inv(ui) && Possible(t)
    ensures Inv(Do(ui, t))
  {
    PressKeepsRange(ui, t.key);
    if t.frame {
      DrawKeepsInv(Press(ui, t.key), t.height, t.rows);
    }
  }

  lemma {:induction false} RunInv(tr: seq<Ui>, turns: seq<Turn>, i: nat)
    requires Run(tr, turns) && i < |tr|
    ensures Inv(tr[i])
  {
    if i > 0 {
      RunInv(tr, turns, i - 1);
      TurnKeepsInv(tr[i - 1], turns[i - 1]);
    }
  }

  ghost predicate Positive(rows: seq<Info>) { forall i :: 0 <= i < |rows| ==> rows[i].pid > 0 }

  ghost predicate AllPositive(pids: seq<int>) { forall i :: 0 <= i < |pids| ==> pids[i] > 0 }

  lemma TurnKeepsPositive(ui: Ui, t: Turn)
    requires AllPositive(ui.pids) && Positive(t.rows)
    ensures AllPositive(Do(ui, t).pids)
  {
    DisplayedAreTheRows(t.rows);
    var pids := Displayed(t.rows);
    forall i | 0 <= i < |pids|
      ensures pids[i] > 0
    {
      assert pids[i] in pids;
    }
  }

  lemma {:induction false} RunIsPositive(tr: seq<Ui>, turns: seq<Turn>, i: nat)
    requires Run(tr, turns) && i < |tr| && forall k :: 0 <= k < i ==> Positive(turns[k].rows)
    ensures AllPositive(tr[i].pids)
  {
    if i > 0 {
      RunIsPositive(tr, turns, i - 1);
      TurnKeepsPositive(tr[i - 1], turns[i - 1]);
    }
  }

  /**
   Whenever a key is read, the selection is in range; in the list view it is the highlighted row. With positive
   PIDs in the samples it is one that a signal can be sent to.
   */
  lemma SignalGoesToHighlighted(tr: seq<Ui>, turns: seq<Turn>, i: nat)
    requires Run(tr, turns) && i < |tr|
    ensures tr[i].pids != [] ==> tr[i].selected < |tr[i].pids|
    ensures tr[i].pids != [] && (forall k :: 0 <= k < i ==> Positive(turns[k].rows)) ==> SelectedPid(tr[i]) > 0
    ensures tr[i].view.ProcessList? ==>
      forall k :: 0 <= k < |tr[i].screen| && tr[i].screen[k].highlighted ==> tr[i].screen[k].pid == SelectedPid(tr[i])
    ensures tr[i].view.ProcessList? && Visible(tr[i].height, |tr[i].pids|) > 0 ==>
      exists k :: 0 <= k < |tr[i].screen| && tr[i].screen[k].highlighted
  {
    RunInv(tr, turns, i);
    if forall k :: 0 <= k < i ==> Positive(turns[k].rows) {
      RunIsPositive(tr, turns, i);
    }
  }

  ghost predicate MovesNothing(key: UiKey) { key.SetView? || key.Other? }

  lemma TurnKeepsSelection(ui: Ui, t: Turn)
    requires MovesNothing(t.key) && SelectedPid(ui) > 0
    requires t.frame ==> Has(t.rows, SelectedPid(ui))
    ensures SelectedPid(Do(ui, t)) == SelectedPid(ui)
  {
    if t.frame {
      var pressed := Press(ui, t.key).(height := t.height);
      assert SelectedPid(pressed) == SelectedPid(ui);
      SelectionFollows(pressed, t.rows);
    }
  }

  /** While no key moves the selection, it stays on the process, through any number of samples that have it. */
  lemma {:induction false} SelectionSticks(tr: seq<Ui>, turns: seq<Turn>, i: nat, j: nat)
    requires Run(tr, turns) && i <= j < |tr| && SelectedPid(tr[i]) > 0
    requires forall k :: i <= k < j ==> MovesNothing(turns[k].key) && (turns[k].frame ==> Has(turns[k].rows, SelectedPid(tr[i])))
    ensures SelectedPid(tr[j]) == SelectedPid(tr[i])
  {
    if i < j {
      SelectionSticks(tr, turns, i, j - 1);
      TurnKeepsSelection(tr[j - 1], turns[j - 1]);
    }
  }
}
