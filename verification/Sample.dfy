/** One sample of the process table, and the bisection of src/process/process_monitor.c. */
module Sample {

  datatype Option<T> = None | Some(value: T)

  /** The columns of km_process_info that other parts compute with. */
  datatype Info = Info(
    pid: int, ppid: int, name: string,
    utime: nat, stime: nat, minflt: nat, majflt: nat,
    cpuPercent: real, minfltRate: real, majfltRate: real)

  /** In PID order. */
  ghost predicate Ordered(rows: seq<Info>) {
    forall i, j :: 0 <= i < j < |rows| ==> rows[i].pid <= rows[j].pid
  }

  /** In PID order and without duplicates. */
  ghost predicate Sorted(rows: seq<Info>) {
    forall i, j :: 0 <= i < j < |rows| ==> rows[i].pid < rows[j].pid
  }

  ghost predicate Has(rows: seq<Info>, pid: int) {
    exists i :: 0 <= i < |rows| && rows[i].pid == pid
  }

  ghost function PidSet(rows: seq<Info>): set<int> {
    set i | 0 <= i < |rows| :: rows[i].pid
  }

  /** Where bisection ends between two bounds: at a row with the PID, or at -1. */
  function Bisect(rows: seq<Info>, pid: int, low: nat, high: nat): (i: int)
    requires low <= high <= |rows|
    ensures i == -1 || (0 <= i < |rows| && rows[i].pid == pid)
    decreases high - low
  {
    if low == high then -1
    else
      var mid := low + (high - low) / 2;
      if rows[mid].pid == pid then mid
      else if rows[mid].pid < pid then Bisect(rows, pid, mid + 1, high)
      else Bisect(rows, pid, low, mid)
  }

  /** In an ordered sample bisection misses nothing, duplicates or not. */
  lemma {:induction false} BisectFinds(rows: seq<Info>, pid: int, low: nat, high: nat, i: nat)
    requires Ordered(rows) && low <= i < high <= |rows| && rows[i].pid == pid
    ensures Bisect(rows, pid, low, high) >= 0
    decreases high - low
  {
    var mid := low + (high - low) / 2;
    if rows[mid].pid < pid {
      BisectFinds(rows, pid, mid + 1, high, i);
    } else if rows[mid].pid > pid {
      BisectFinds(rows, pid, low, mid, i);
    }
  }

  /** The position of a PID, -1 if it is not in the sample; where there are several, the one that bisection finds. */
  ghost function Position(rows: seq<Info>, pid: int): (i: int)
    ensures -1 <= i < |rows|
    ensures i >= 0 ==> rows[i].pid == pid
    ensures i == -1 <==> !Has(rows, pid)
  {
    var b := Bisect(rows, pid, 0, |rows|);
    if b >= 0 then b
    else if Has(rows, pid) then var i :| 0 <= i < |rows| && rows[i].pid == pid; i
    else -1
  }

  ghost function Lookup(rows: seq<Info>, pid: int): Option<Info> {
    var i := Position(rows, pid);
    if i < 0 then None else Some(rows[i])
  }

  lemma PositionIs(rows: seq<Info>, i: nat)
    requires Sorted(rows) && i < |rows|
    ensures Has(rows, rows[i].pid) && Position(rows, rows[i].pid) == i
  {
  }

  lemma PositionIsBisect(rows: seq<Info>, pid: int)
    requires Ordered(rows)
    ensures Position(rows, pid) == Bisect(rows, pid, 0, |rows|)
  {
    if i :| 0 <= i < |rows| && rows[i].pid == pid {
      BisectFinds(rows, pid, 0, |rows|, i);
    }
  }

  /** find_in: bisection over the first `count` entries. */
  method FindIn(items: array<Info>, count: nat, pid: int) returns (index: int)
    requires count <= items.Length && Ordered(items[..count])
    ensures index == Position(items[..count], pid)
  {
    var low, high := 0, count;
    ghost var rows := items[..count];
    PositionIsBisect(rows, pid);
    while low < high
      invariant 0 <= low <= high <= count
      invariant Bisect(rows, pid, low, high) == Position(rows, pid)
    {
      var mid := low + (high - low) / 2;
      assert items[mid] == rows[mid];
      if items[mid].pid == pid {
        return mid;
      }
      if items[mid].pid < pid {
        low := mid + 1;
      } else {
        high := mid;
      }
    }
    return -1;
  }
}
