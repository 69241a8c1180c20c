/**
 The process tree of src/process/process_monitor.c: all children in one flat array, each parent owning
 a slice, built by counting, adding up and filling in; and the parent relation it must be equal to.
 */
module ProcessTree {
  import opened Sample
  import opened Sorting
  import opened Slices

  // ---- The relation ----

  /** The PIDs of the processes whose parent is `pid`, in sample order. */
  function KidsOf(rows: seq<Info>, pid: int): seq<int> {
    if rows == [] then []
    else
      var last := rows[|rows| - 1];
      KidsOf(rows[..|rows| - 1], pid) + if last.ppid == pid then [last.pid] else []
  }

  /** The processes among the first n whose parent is not in the sample. */
  ghost function Orphans(rows: seq<Info>, n: nat): seq<int>
    requires n <= |rows|
  {
    if n == 0 then [] else Orphans(rows, n - 1) + if Has(rows, rows[n - 1].ppid) then [] else [rows[n - 1].pid]
  }

  predicate TopByItself(p: Info) { p.ppid == 0 || p.ppid == p.pid }

  /** The processes among the first n that are on top by PPID 0 or their own, and not there already. */
  ghost function LateRoots(rows: seq<Info>, n: nat): seq<int>
    requires n <= |rows|
  {
    if n == 0 then []
    else
      var sofar := LateRoots(rows, n - 1);
      var p := rows[n - 1];
      if TopByItself(p) && p.pid !in Orphans(rows, |rows|) + sofar then sofar + [p.pid] else sofar
  }

  ghost function Roots(rows: seq<Info>): seq<int> {
    Orphans(rows, |rows|) + LateRoots(rows, |rows|)
  }

  /** The row that a search for its PID finds; without duplicates, every row. */
  ghost predicate IsFound(rows: seq<Info>, k: nat)
    requires k < |rows|
  {
    Position(rows, rows[k].pid) == k
  }

  /** The children among the first n that are counted for the k-th process. */
  ghost function KidsAmong(rows: seq<Info>, n: nat, k: nat): seq<int>
    requires n <= |rows| && k < |rows|
  {
    if IsFound(rows, k) then KidsOf(rows[..n], rows[k].pid) else []
  }

  /** For each row the children among the first n, as the tree lists them. */
  ghost function Kids(rows: seq<Info>, n: nat): seq<seq<int>>
    requires n <= |rows|
  {
    seq(|rows|, k requires 0 <= k < |rows| => KidsAmong(rows, n, k))
  }

  // ---- Children ----

  lemma KidsOfStep(rows: seq<Info>, i: nat, pid: int)
    requires i < |rows|
    ensures KidsOf(rows[..i + 1], pid) == KidsOf(rows[..i], pid) + if rows[i].ppid == pid then [rows[i].pid] else []
  {
    assert rows[..i + 1][..i] == rows[..i];
  }

  /** One more process adds one child to its parent, if it is in the sample, and to nobody else. */
  lemma KidsAmongStep(rows: seq<Info>, i: nat, k: nat)
    requires i < |rows| && k < |rows|
    ensures KidsAmong(rows, i + 1, k) == KidsAmong(rows, i, k) + if k == Position(rows, rows[i].ppid) then [rows[i].pid] else []
  {
    KidsOfStep(rows, i, rows[k].pid);
    if IsFound(rows, k) {
      assert rows[i].ppid == rows[k].pid <==> Position(rows, rows[i].ppid) == k;
    }
  }

  lemma KidsStep(rows: seq<Info>, i: nat, parent: int)
    requires i < |rows| && parent == Position(rows, rows[i].ppid)
    ensures var was := Kids(rows, i);
            Kids(rows, i + 1) == if parent >= 0 then was[parent := was[parent] + [rows[i].pid]] else was
  {
    var n := i + 1;
    var was, now := Kids(rows, i), Kids(rows, n);
    forall k | 0 <= k < |rows|
      ensures now[k] == was[k] + if k == parent then [rows[i].pid] else []
    {
      KidsAmongStep(rows, i, k);
    }
    assert forall k :: 0 <= k < |rows| && k != parent ==> now[k] == was[k];
  }

  lemma KidsPrefix(rows: seq<Info>, i: nat, k: nat)
    requires i <= |rows| && k < |rows|
    ensures Kids(rows, i)[k] <= Kids(rows, |rows|)[k]
  {
    KidsOfPrefix(rows, i, rows[k].pid);
    assert rows[..|rows|] == rows;
  }

  lemma NoKidsYet(rows: seq<Info>)
    ensures |Kids(rows, 0)| == |rows| && forall k :: 0 <= k < |rows| ==> Kids(rows, 0)[k] == []
  {
  }

  /** The list of the row that a search for a PID finds is the list of its children. */
  lemma KidsOfFound(rows: seq<Info>, k: nat)
    requires k < |rows| && IsFound(rows, k)
    ensures Kids(rows, |rows|)[k] == KidsOf(rows, rows[k].pid)
  {
    assert rows[..|rows|] == rows;
  }

  lemma {:induction false} KidsOfPrefix(rows: seq<Info>, i: nat, pid: int)
    requires i <= |rows|
    ensures KidsOf(rows[..i], pid) <= KidsOf(rows, pid)
    decreases |rows| - i
  {
    if i == |rows| {
      assert rows[..i] == rows;
    } else {
      KidsOfPrefix(rows, i + 1, pid);
      KidsOfStep(rows, i, pid);
    }
  }

  lemma {:induction false} KidsAreThere(rows: seq<Info>, pid: int)
    ensures forall q :: q in KidsOf(rows, pid) <==> exists i :: 0 <= i < |rows| && rows[i].pid == q && rows[i].ppid == pid
  {
    if rows != [] {
      var n := |rows| - 1;
      KidsAreThere(rows[..n], pid);
      forall q
        ensures q in KidsOf(rows, pid) <==> exists i :: 0 <= i < |rows| && rows[i].pid == q && rows[i].ppid == pid
      {
        if q in KidsOf(rows[..n], pid) {
          var i :| 0 <= i < n && rows[..n][i].pid == q && rows[..n][i].ppid == pid;
          assert rows[i].pid == q && rows[i].ppid == pid;
        }
        if i :| 0 <= i < n && rows[i].pid == q && rows[i].ppid == pid {
          assert rows[..n][i].pid == q && rows[..n][i].ppid == pid;
        }
      }
    }
  }

  lemma KidIsEarlier(rows: seq<Info>, n: nat, pid: int, a: nat)
    requires n < |rows| && a < |KidsOf(rows[..n], pid)|
    ensures Ordered(rows) ==> KidsOf(rows[..n], pid)[a] <= rows[n].pid
    ensures Sorted(rows) ==> KidsOf(rows[..n], pid)[a] < rows[n].pid
  {
    var kids := KidsOf(rows[..n], pid);
    KidsAreThere(rows[..n], pid);
    assert kids[a] in kids;
    var i :| 0 <= i < n && rows[..n][i].pid == kids[a];
    assert rows[i].pid == kids[a];
  }

  lemma {:induction false} KidsInOrder(rows: seq<Info>, pid: int)
    requires Ordered(rows)
    ensures forall a, b :: 0 <= a < b < |KidsOf(rows, pid)| ==> KidsOf(rows, pid)[a] <= KidsOf(rows, pid)[b]
    ensures Sorted(rows) ==> Distinct(KidsOf(rows, pid))
  {
    if rows != [] {
      var n := |rows| - 1;
      KidsInOrder(rows[..n], pid);
      forall a | 0 <= a < |KidsOf(rows[..n], pid)|
        ensures KidsOf(rows[..n], pid)[a] <= rows[n].pid && (Sorted(rows) ==> KidsOf(rows[..n], pid)[a] < rows[n].pid)
      {
        KidIsEarlier(rows, n, pid, a);
      }
    }
  }

  /** A child belongs to the list exactly if it names that parent, and the list is in ascending order. */
  lemma KidsAreTheChildren(rows: seq<Info>, pid: int)
    requires Ordered(rows)
    ensures forall q :: q in KidsOf(rows, pid) <==> exists i :: 0 <= i < |rows| && rows[i].pid == q && rows[i].ppid == pid
    ensures forall a, b :: 0 <= a < b < |KidsOf(rows, pid)| ==> KidsOf(rows, pid)[a] <= KidsOf(rows, pid)[b]
    ensures Sorted(rows) ==> Distinct(KidsOf(rows, pid))
  {
    KidsAreThere(rows, pid);
    KidsInOrder(rows, pid);
  }

  // ---- Roots ----

  lemma {:induction false} OrphansAre(rows: seq<Info>, n: nat)
    requires n <= |rows|
    ensures forall q :: q in Orphans(rows, n) <==> exists i :: 0 <= i < n && rows[i].pid == q && !Has(rows, rows[i].ppid)
  {
    if n > 0 {
      OrphansAre(rows, n - 1);
    }
  }

  lemma {:induction false} LateRootsAre(rows: seq<Info>, n: nat)
    requires n <= |rows|
    ensures forall q :: q in LateRoots(rows, n) <==>
      q !in Orphans(rows, |rows|) && exists i :: 0 <= i < n && rows[i].pid == q && TopByItself(rows[i])
  {
    if n > 0 {
      LateRootsAre(rows, n - 1);
    }
  }

  lemma {:induction false} RootsWithin(rows: seq<Info>, n: nat)
    requires n <= |rows|
    ensures |Orphans(rows, n)| + |LateRoots(rows, n)| <= n
  {
    if n > 0 {
      RootsWithin(rows, n - 1);
      OrphansAre(rows, |rows|);
      assert rows[n - 1].pid !in Orphans(rows, |rows|) ==> Has(rows, rows[n - 1].ppid);
    }
  }

  lemma {:induction false} LateRootsGrow(rows: seq<Info>, i: nat, n: nat)
    requires i <= n <= |rows|
    ensures |LateRoots(rows, i)| <= |LateRoots(rows, n)|
  {
    if i < n {
      LateRootsGrow(rows, i, n - 1);
    }
  }

  ghost predicate Distinct(s: seq<int>) {
    forall a, b :: 0 <= a < b < |s| ==> s[a] != s[b]
  }

  lemma {:induction false} OrphansDistinct(rows: seq<Info>, n: nat)
    requires n <= |rows| && Sorted(rows)
    ensures Distinct(Orphans(rows, n))
  {
    if n > 0 {
      var sofar := Orphans(rows, n - 1);
      OrphansDistinct(rows, n - 1);
      OrphansAre(rows, n - 1);
      assert rows[n - 1].pid !in sofar;
    }
  }

  lemma {:induction false} LateRootsDistinct(rows: seq<Info>, n: nat)
    requires n <= |rows|
    ensures Distinct(LateRoots(rows, n))
  {
    if n > 0 {
      LateRootsDistinct(rows, n - 1);
    }
  }

  lemma RootsDistinct(rows: seq<Info>)
    requires Sorted(rows)
    ensures Distinct(Roots(rows))
  {
    var n := |rows|;
    OrphansDistinct(rows, n);
    LateRootsDistinct(rows, n);
    LateRootsAre(rows, n);
    forall b | 0 <= b < |LateRoots(rows, n)|
      ensures LateRoots(rows, n)[b] !in Orphans(rows, n)
    {
      assert LateRoots(rows, n)[b] in LateRoots(rows, n);
    }
  }

  /**
   The roots are at most as many as the processes, and exactly the processes whose PPID is absent, zero or
   their own; without duplicates in the sample there are none among them.
   */
  lemma RootsAreExact(rows: seq<Info>)
    ensures |Roots(rows)| <= |rows| && (Sorted(rows) ==> Distinct(Roots(rows)))
    ensures forall q :: q in Roots(rows) <==>
      exists i :: 0 <= i < |rows| && rows[i].pid == q && (!Has(rows, rows[i].ppid) || TopByItself(rows[i]))
  {
    RootsWithin(rows, |rows|);
    OrphansAre(rows, |rows|);
    LateRootsAre(rows, |rows|);
    if Sorted(rows) {
      RootsDistinct(rows);
    }
  }

  lemma {:induction false} OrphansRise(rows: seq<Info>, n: nat)
    requires Ordered(rows) && n <= |rows|
    ensures Rising(Orphans(rows, n))
  {
    if n > 0 {
      var sofar := Orphans(rows, n - 1);
      OrphansRise(rows, n - 1);
      OrphansAre(rows, n - 1);
      assert forall k :: 0 <= k < |sofar| ==> sofar[k] in sofar;
    }
  }

  lemma {:induction false} LateRootsRise(rows: seq<Info>, n: nat)
    requires Ordered(rows) && n <= |rows|
    ensures Ascending(LateRoots(rows, n))
  {
    if n > 0 {
      var sofar := LateRoots(rows, n - 1);
      LateRootsRise(rows, n - 1);
      LateRootsAre(rows, n - 1);
      assert forall k :: 0 <= k < |sofar| ==> sofar[k] in sofar;
    }
  }

  /**
   The roots in their order: in PID order those whose parent is absent, and then in PID order, each once, those
   that are on top only by PPID 0 or their own.
   */
  lemma RootsInOrder(rows: seq<Info>) returns (n: nat)
    requires Ordered(rows)
    ensures n <= |Roots(rows)| && Rising(Roots(rows)[..n]) && Ascending(Roots(rows)[n..])
    ensures forall q :: q in Roots(rows)[..n] <==> exists i :: 0 <= i < |rows| && rows[i].pid == q && !Has(rows, rows[i].ppid)
    ensures forall q :: q in Roots(rows)[n..] <==>
      && q !in Roots(rows)[..n]
      && exists i :: 0 <= i < |rows| && rows[i].pid == q && (rows[i].ppid == 0 || rows[i].ppid == q)
  {
    var m := |rows|;
    n := |Orphans(rows, m)|;
    OrphansRise(rows, m);
    LateRootsRise(rows, m);
    OrphansAre(rows, m);
    LateRootsAre(rows, m);
    assert Roots(rows)[..n] == Orphans(rows, m) && Roots(rows)[n..] == LateRoots(rows, m);
    forall q
      ensures q in LateRoots(rows, m) <==>
        q !in Orphans(rows, m) && exists i :: 0 <= i < m && rows[i].pid == q && (rows[i].ppid == 0 || rows[i].ppid == q)
    {
      if i :| 0 <= i < m && rows[i].pid == q && TopByItself(rows[i]) {
        assert rows[i].pid == q && (rows[i].ppid == 0 || rows[i].ppid == q);
      }
      if i :| 0 <= i < m && rows[i].pid == q && (rows[i].ppid == 0 || rows[i].ppid == q) {
        assert TopByItself(rows[i]);
      }
    }
  }

  /** Where a search for a PID ends, there is the list of its children. */
  ghost predicate AreKids(lists: seq<seq<int>>, rows: seq<Info>) {
    && |lists| == |rows|
    && forall k {:trigger IsFound(rows, k)} :: 0 <= k < |rows| && IsFound(rows, k) ==> lists[k] == KidsOf(rows, rows[k].pid)
  }

  lemma KidsAreKids(rows: seq<Info>)
    ensures AreKids(Kids(rows, |rows|), rows)
  {
    forall k {:trigger IsFound(rows, k)} | 0 <= k < |rows| && IsFound(rows, k)
      ensures Kids(rows, |rows|)[k] == KidsOf(rows, rows[k].pid)
    {
      KidsOfFound(rows, k);
    }
  }

  // ---- The arrays ----

  class Tree {
    const rows: array<Info>
    const count: nat
    var childStart: array<nat>
    var childCount: array<nat>
    var childPids: array<int>
    var roots: array<int>
    var rootCount: nat

    /** For each row the children that its slice holds. */
    ghost var lists: seq<seq<int>>

    ghost function Sample(): seq<Info>
      requires count <= rows.Length
      reads rows
    {
      rows[..count]
    }

    ghost predicate Shape()
      reads this
    {
      && count <= rows.Length
      && childStart.Length == childCount.Length == roots.Length == count
      && childStart != childCount && childPids != roots
    }

    /** The arrays are what the parent relation says. */
    ghost predicate Valid()
      reads this, rows, childStart, childCount, childPids, roots
    {
      && Shape() && Ordered(Sample())
      && |lists| == count && AreKids(lists, Sample())
      && childStart[..] == Starts(lists) && childCount[..] == Counts(lists) && childPids[..] == Flat(lists, count)
      && rootCount <= count && roots[..rootCount] == Roots(Sample())
    }

    constructor (rows: array<Info>, count: nat)
      requires count <= rows.Length
      ensures this.rows == rows && this.count == count && Shape()
      ensures fresh(childStart) && fresh(childCount) && fresh(childPids) && fresh(roots)
      ensures rootCount == 0 && (forall k :: 0 <= k < count ==> childCount[k] == 0)
    {
      this.rows, this.count := rows, count;
      childStart := new nat[count](_ => 0);
      childCount := new nat[count](_ => 0);
      childPids := new int[0];
      roots := new int[count];
      rootCount := 0;
    }

    /** First pass: count the children of each process, and collect those whose parent is absent. */
    method CountChildren()
      requires Shape() && Ordered(Sample()) && rootCount == 0
      requires forall k :: 0 <= k < count ==> childCount[k] == 0
      modifies this`rootCount, childCount, roots
      ensures rootCount <= count && roots[..rootCount] == Orphans(Sample(), count)
      ensures childCount[..] == Counts(Kids(Sample(), count))
    {
      ghost var s := Sample();
      NoCounts(childCount[..], s);
      for i := 0 to count
        invariant rootCount <= i && roots[..rootCount] == Orphans(s, i)
        invariant childCount[..] == Counts(Kids(s, i))
      {
        CountOne(i, s, Kids(s, i), Kids(s, i + 1));
      }
    }

    method CountOne(i: nat, ghost s: seq<Info>, ghost sofar: seq<seq<int>>, ghost more: seq<seq<int>>)
      requires Shape() && s == Sample() && Ordered(s) && i < count && sofar == Kids(s, i) && more == Kids(s, i + 1)
      requires rootCount <= i && roots[..rootCount] == Orphans(s, i) && childCount[..] == Counts(sofar)
      modifies this`rootCount, childCount, roots
      ensures rootCount <= i + 1 && roots[..rootCount] == Orphans(s, i + 1) && childCount[..] == Counts(more)
    {
      var parent := FindIn(rows, count, rows[i].ppid);
      KidsStep(s, i, parent);
      if parent >= 0 {
        CountsUpdate(sofar, parent, s[i].pid);
        AddTo(childCount, parent);
      } else {
        AddRoot(rows[i].pid);
      }
    }

    method AddRoot(pid: int)
      requires Shape() && rootCount < count
      modifies this`rootCount, roots
      ensures rootCount == old(rootCount) + 1 && roots[..rootCount] == old(roots[..rootCount]) + [pid]
    {
      roots[rootCount] := pid;
      rootCount := rootCount + 1;
    }

    /** Second loop: where each slice of the flat array begins, and how long the array must be. */
    method AddUp(ghost lists: seq<seq<int>>) returns (total: nat)
      requires Shape() && |lists| == count && childCount[..] == Counts(lists)
      modifies childStart
      ensures total == Offset(lists, count)
      ensures childStart[..] == Starts(lists)
    {
      total := 0;
      for i := 0 to count
        invariant total == Offset(lists, i)
        invariant forall k :: 0 <= k < i ==> childStart[k] == Offset(lists, k)
      {
        assert childCount[i] == Counts(lists)[i];
        childStart[i] := total;
        total := total + childCount[i];
      }
    }

    method Place(fill: array<nat>, pid: int, p: nat, ghost lists: seq<seq<int>>, ghost sofar: seq<seq<int>>)
      requires Shape() && p < count == |lists| == |sofar| && sofar[p] + [pid] <= lists[p]
      requires fill.Length == count && fill != childStart && AllPlaced(childPids[..], lists, sofar)
      requires childStart[p] == Offset(lists, p) && fill[p] == |sofar[p]|
      modifies childPids, fill
      ensures AllPlaced(childPids[..], lists, sofar[p := sofar[p] + [pid]])
      ensures fill[..] == old(fill[..])[p := old(fill[p]) + 1]
    {
      ghost var flat := childPids[..];
      PlaceOne(flat, lists, sofar, p, pid);
      childPids[childStart[p] + fill[p]] := pid;
      assert childPids[..] == flat[Offset(lists, p) + |sofar[p]| := pid];
      AddTo(fill, p);
    }

    /** Second pass: walk the sample again and put each process into the slice of its parent. */
    method FillIn(ghost lists: seq<seq<int>>)
      requires Shape() && Ordered(Sample()) && lists == Kids(Sample(), count)
      requires childStart[..] == Starts(lists) && childPids.Length == Offset(lists, count)
      modifies childPids
      ensures childPids[..] == Flat(lists, count)
    {
      ghost var s := Sample();
      var fill := new nat[count](_ => 0);
      ghost var sofar := Kids(s, 0);
      NoKidsYet(s);
      NothingPlaced(childPids[..], lists, sofar);
      NoCounts(fill[..], s);
      for i := 0 to count
        invariant sofar == Kids(s, i) && fill[..] == Counts(sofar) && AllPlaced(childPids[..], lists, sofar)
      {
        FillOne(fill, i, s, lists, sofar, Kids(s, i + 1));
        sofar := Kids(s, i + 1);
      }
      PlacedIsFlat(childPids[..], lists, count);
    }

    method FillOne(fill: array<nat>, i: nat, ghost s: seq<Info>, ghost lists: seq<seq<int>>, ghost sofar: seq<seq<int>>, ghost more: seq<seq<int>>)
      requires Shape() && s == Sample() && Ordered(s) && i < count && childStart[..] == Starts(lists)
      requires lists == Kids(s, count) && sofar == Kids(s, i) && more == Kids(s, i + 1)
      requires fill.Length == count && fill != childStart && fill[..] == Counts(sofar) && AllPlaced(childPids[..], lists, sofar)
      modifies childPids, fill
      ensures fill[..] == Counts(more) && AllPlaced(childPids[..], lists, more)
    {
      var parent := FindIn(rows, count, rows[i].ppid);
      KidsStep(s, i, parent);
      if parent >= 0 {
        KidsPrefix(s, i + 1, parent);
        CountsUpdate(sofar, parent, s[i].pid);
        assert childStart[parent] == Starts(lists)[parent] && fill[parent] == Counts(sofar)[parent];
        Place(fill, rows[i].pid, parent, lists, sofar);
      }
    }

    /** Third pass: a process on top by PPID 0 or its own is a root even if its PPID is in the sample. */
    method AddLateRoots()
      requires Shape() && Ordered(Sample()) && rootCount <= count && roots[..rootCount] == Orphans(Sample(), count)
      modifies this`rootCount, roots
      ensures rootCount <= count && roots[..rootCount] == Roots(Sample())
    {
      ghost var s := Sample();
      for i := 0 to count
        invariant rootCount <= count && roots[..rootCount] == Orphans(s, count) + LateRoots(s, i)
      {
        AddLateRoot(i, s);
      }
    }

    method AddLateRoot(i: nat, ghost s: seq<Info>)
      requires Shape() && s == Sample() && Ordered(s) && i < count && rootCount <= count
      requires roots[..rootCount] == Orphans(s, count) + LateRoots(s, i)
      modifies this`rootCount, roots
      ensures rootCount <= count && roots[..rootCount] == Orphans(s, count) + LateRoots(s, i + 1)
    {
      LateRootFits(s, i);
      if TopByItself(rows[i]) {
        var already := IsRoot(rows[i].pid);
        if !already {
          AddRoot(rows[i].pid);
        }
      }
    }

    /** The search through the roots so far. */
    method IsRoot(pid: int) returns (already: bool)
      requires Shape() && rootCount <= count
      ensures already <==> pid in roots[..rootCount]
    {
      for r := 0 to rootCount
        invariant pid !in roots[..r]
      {
        if roots[r] == pid {
          return true;
        }
      }
      return false;
    }

    /** km_process_tree_build. */
    method Build()
      requires Shape() && Ordered(Sample()) && rootCount == 0
      requires forall k :: 0 <= k < count ==> childCount[k] == 0
      modifies this`rootCount, this`childPids, this`lists, childStart, childCount, roots
      ensures Valid() && fresh(childPids) && lists == Kids(Sample(), count)
    {
      CountChildren();
      lists := Kids(Sample(), count);
      KidsAreKids(Sample());
      var total := AddUp(lists);
      childPids := new int[total];
      FillIn(lists);
      AddLateRoots();
    }

    /** km_process_tree_find. */
    method Find(pid: int) returns (found: bool)
      requires Valid()
      ensures found == Has(Sample(), pid)
    {
      var index := FindIn(rows, count, pid);
      found := index >= 0;
    }

    /** km_process_tree_children: where the slice of a process begins, and its length. */
    method Children(pid: int) returns (start: nat, length: nat)
      requires Valid()
      ensures start + length <= childPids.Length
      ensures childPids[start..start + length] == if Has(Sample(), pid) then KidsOf(Sample(), pid) else []
    {
      var index := FindIn(rows, count, pid);
      if index < 0 {
        return 0, 0;
      }
      assert IsFound(Sample(), index);
      FlatSlice(lists, index, count);
      assert childStart[index] == Starts(lists)[index] && childCount[index] == Counts(lists)[index];
      start, length := childStart[index], childCount[index];
    }
  }

  method AddTo(counts: array<nat>, k: nat)
    requires k < counts.Length
    modifies counts
    ensures counts[..] == old(counts[..])[k := old(counts[k]) + 1]
  {
    counts[k] := counts[k] + 1;
  }

  lemma NoCounts(counts: seq<nat>, rows: seq<Info>)
    requires |counts| == |rows| && forall k :: 0 <= k < |counts| ==> counts[k] == 0
    ensures counts == Counts(Kids(rows, 0))
  {
    NoKidsYet(rows);
  }

  lemma LateRootFits(rows: seq<Info>, i: nat)
    requires i < |rows|
    ensures |Orphans(rows, |rows|)| + |LateRoots(rows, i + 1)| <= |rows|
  {
    RootsWithin(rows, |rows|);
    LateRootsGrow(rows, i + 1, |rows|);
  }
}
