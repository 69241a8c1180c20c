/** km_ui of src/ui/ui.c, updated in place: the list redraw and the keys that move the selection. */
module ListView {
  import opened Sample
  import opened ProcessTable

  class ListUi {
    var viewMode: ViewMode
    var selectedIndex: nat
    var scrollOffset: nat
    var displayedPids: array<int>
    var displayedCount: nat
    var termHeight: int
    /** The rows of the content window as last drawn by the list view. */
    var screen: seq<Shown>

    ghost predicate Valid()
      reads this
    {
      displayedCount <= displayedPids.Length
    }

    ghost function Value(): Ui
      requires Valid()
      reads this, displayedPids
    {
      Ui(viewMode, selectedIndex, scrollOffset, displayedPids[..displayedCount], termHeight, screen)
    }

    /** km_ui_init_state, and the terminal height found by km_ui_initialize. */
    constructor (height: int)
      ensures Valid() && fresh(displayedPids)
      ensures Value() == Ui(ProcessList, 0, 0, [], height, [])
    {
      viewMode, selectedIndex, scrollOffset := ProcessList, 0, 0;
      displayedPids, displayedCount := new int[0], 0;
      termHeight, screen := height, [];
    }

    method GetSelectedPid() returns (pid: int)
      requires Valid()
      ensures pid == SelectedPid(Value())
    {
      if displayedCount == 0 || selectedIndex >= displayedCount {
        return -1;
      }
      return displayedPids[selectedIndex];
    }

    /** reserve_displayed: what realloc moves is still there. */
    method Reserve(needed: nat)
      requires Valid()
      modifies this`displayedPids
      ensures Valid() && Value() == old(Value())
      ensures displayedPids.Length ==
        var capacity := old(displayedPids.Length);
        if needed <= capacity then capacity else Doubled(if capacity == 0 then 512 else capacity, needed)
      ensures displayedPids == old(displayedPids) || fresh(displayedPids)
    {
      if needed > displayedPids.Length {
        var capacity := if displayedPids.Length != 0 then displayedPids.Length else 512;
        ghost var first := capacity;
        while capacity < needed
          invariant capacity >= 1 && capacity >= displayedPids.Length
          invariant Doubled(capacity, needed) == Doubled(first, needed)
          decreases needed - capacity
        {
          capacity := capacity * 2;
        }
        var grown := new int[capacity];
        forall i | 0 <= i < displayedCount {
          grown[i] := displayedPids[i];
        }
        assert grown[..displayedCount] == displayedPids[..displayedCount];
        displayedPids := grown;
      }
    }

    /** draw_process_list. */
    method DrawProcessList(rows: seq<Info>)
      requires Valid()
      modifies this, displayedPids
      ensures Valid() && Value() == DrawList(old(Value()), rows)
      ensures displayedPids == old(displayedPids) || fresh(displayedPids)
    {
      var sorted := SortAndFollow(rows);
      var visible := Min(if termHeight - 9 > 0 then termHeight - 9 else 0, |rows|);
      ScrollTo(visible);
      PrintRows(sorted, visible);
    }

    /** The first half: the new order, and the selection in it. */
    method SortAndFollow(rows: seq<Info>) returns (sorted: seq<Info>)
      requires Valid()
      modifies this`displayedPids, this`displayedCount, this`selectedIndex, displayedPids
      ensures Valid() && sorted == Table(rows)
      ensures var ui := old(Value());
              Value() == ui.(pids := Displayed(rows), selected := Follow(ui.selected, SelectedPid(ui), Displayed(rows)))
      ensures displayedPids == old(displayedPids) || fresh(displayedPids)
    {
      Reserve(|rows|);
      var previous := GetSelectedPid();
      sorted := Table(rows);
      Fill(sorted);
      FollowSelection(previous);
    }

    method Fill(sorted: seq<Info>)
      requires Valid() && |sorted| <= displayedPids.Length
      modifies this`displayedCount, displayedPids
      ensures Valid() && Value() == old(Value()).(pids := Pids(sorted))
    {
      displayedCount := |sorted|;
      forall i | 0 <= i < |sorted| {
        displayedPids[i] := sorted[i].pid;
      }
      assert displayedPids[..displayedCount] == Pids(sorted);
    }

    method FollowSelection(previous: int)
      requires Valid()
      modifies this`selectedIndex
      ensures Value() == old(Value()).(selected := Follow(old(selectedIndex), previous, old(Value().pids)))
    {
      ghost var pids := displayedPids[..displayedCount];
      if previous > 0 {
        var i := 0;
        while i < displayedCount
          invariant 0 <= i <= displayedCount && previous !in pids[..i]
          invariant selectedIndex == old(selectedIndex)
        {
          assert displayedPids[i] == pids[i];
          if displayedPids[i] == previous {
            selectedIndex := i;
            PlaceIs(pids, previous, i);
            break;
          }
          assert pids[..i + 1] == pids[..i] + [pids[i]];
          i := i + 1;
        }
        assert i == displayedCount ==> pids[..i] == pids;
      }
      if displayedCount > 0 && selectedIndex >= displayedCount {
        selectedIndex := displayedCount - 1;
      }
    }

    method ScrollTo(visible: nat)
      requires Valid()
      modifies this`scrollOffset
      ensures Value() == old(Value()).(scroll := Scrolled(old(scrollOffset), selectedIndex, visible))
    {
      if selectedIndex >= scrollOffset + visible {
        scrollOffset := selectedIndex - visible + 1;
      }
      if selectedIndex < scrollOffset {
        scrollOffset := selectedIndex;
      }
    }

    method PrintRows(sorted: seq<Info>, visible: nat)
      modifies this`screen
      ensures screen == Screen(Pids(sorted), selectedIndex, scrollOffset, visible)
    {
      ghost var pids := Pids(sorted);
      screen := [];
      var i := 0;
      while i < visible && scrollOffset + i < |sorted|
        invariant 0 <= i <= visible
        invariant screen == Screen(pids, selectedIndex, scrollOffset, i)
      {
        PrintRow(sorted[scrollOffset + i].pid, scrollOffset + i, pids, i);
        i := i + 1;
      }
      ScreenEnds(pids, selectedIndex, scrollOffset, i, visible);
    }

    method PrintRow(pid: int, index: nat, ghost pids: seq<int>, ghost i: nat)
      requires index == scrollOffset + i < |pids| && pids[index] == pid
      requires screen == Screen(pids, selectedIndex, scrollOffset, i)
      modifies this`screen
      ensures screen == Screen(pids, selectedIndex, scrollOffset, i + 1)
    {
      ScreenGrows(pids, selectedIndex, scrollOffset, i);
      screen := screen + [Shown(pid, index == selectedIndex)];
    }

    /** km_ui_draw, as far as it concerns the list. */
    method DrawFrame(height: int, rows: seq<Info>)
      requires Valid()
      modifies this, displayedPids
      ensures Valid() && Value() == Draw(old(Value()), height, rows)
      ensures termHeight == height && (!old(viewMode).ProcessList? ==> Value() == old(Value()).(height := height))
      ensures displayedPids == old(displayedPids) || fresh(displayedPids)
    {
      if height != termHeight {
        termHeight := height;
      }
      if viewMode.ProcessList? {
        DrawProcessList(rows);
      }
    }

    method SelectNext()
      requires Valid()
      modifies this`selectedIndex
      ensures Value() == Press(old(Value()), Down)
      ensures selectedIndex == old(selectedIndex) + if old(selectedIndex) + 1 < displayedCount then 1 else 0
    {
      if displayedCount > 0 && selectedIndex < displayedCount - 1 {
        selectedIndex := selectedIndex + 1;
      }
    }

    method SelectPrevious()
      requires Valid()
      modifies this`selectedIndex
      ensures Value() == Press(old(Value()), Up)
      ensures selectedIndex == old(selectedIndex) - if old(selectedIndex) > 0 then 1 else 0
    {
      if selectedIndex > 0 {
        selectedIndex := selectedIndex - 1;
      }
    }

    method SelectPageUp()
      requires Valid()
      modifies this`selectedIndex
      ensures Value() == Press(old(Value()), PageUp)
      ensures old(selectedIndex) - 10 <= selectedIndex <= old(selectedIndex) && (selectedIndex == old(selectedIndex) - 10 || selectedIndex == 0)
    {
      if selectedIndex >= 10 {
        selectedIndex := selectedIndex - 10;
      } else {
        selectedIndex := 0;
      }
    }

    method SelectPageDown()
      requires Valid()
      modifies this`selectedIndex
      ensures Value() == Press(old(Value()), PageDown)
      ensures if displayedCount == 0 then selectedIndex == old(selectedIndex)
              else selectedIndex <= old(selectedIndex) + 10 && (selectedIndex == old(selectedIndex) + 10 || selectedIndex == displayedCount - 1)
    {
      if displayedCount > 0 {
        selectedIndex := Min(selectedIndex + 10, displayedCount - 1);
      }
    }

    method SetViewMode(view: ViewMode)
      requires Valid()
      modifies this`viewMode, this`scrollOffset
      ensures Value() == Press(old(Value()), SetView(view))
      ensures viewMode == view && scrollOffset == 0
    {
      viewMode := view;
      scrollOffset := 0;
    }
  }

  lemma ScreenGrows(pids: seq<int>, selected: nat, scroll: nat, i: nat)
    requires scroll + i < |pids|
    ensures Screen(pids, selected, scroll, i + 1)
         == Screen(pids, selected, scroll, i) + [Shown(pids[scroll + i], scroll + i == selected)]
  {
  }

  lemma ScreenEnds(pids: seq<int>, selected: nat, scroll: nat, i: nat, visible: nat)
    requires i <= visible && (i == visible || scroll + i >= |pids|)
    ensures Screen(pids, selected, scroll, i) == Screen(pids, selected, scroll, visible)
  {
  }

  /** A capacity doubled until it is enough, and no more often than that. */
  function Doubled(capacity: nat, needed: nat): (r: nat)
    requires capacity >= 1
    ensures r >= needed && r >= capacity && (r > capacity ==> r < 2 * needed)
    decreases needed - capacity
  {
    if capacity >= needed then capacity else Doubled(capacity * 2, needed)
  }

  lemma {:induction false} PlaceIs(pids: seq<int>, pid: int, i: nat)
    requires i < |pids| && pids[i] == pid && pid !in pids[..i]
    ensures PlaceOf(pids, pid) == i
  {
    if i > 0 {
      assert pids[0] in pids[..i];
      assert pids[1..][..i - 1] == pids[..i][1..];
      PlaceIs(pids[1..], pid, i - 1);
    }
  }
}
