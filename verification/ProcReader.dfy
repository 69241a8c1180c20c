/** The list of live PIDs of src/proc/proc_reader.c: a growing array, a filter over a directory listing, a sort. */
module ProcReader {
  import opened Numbers
  import opened Sorting
  import Sample
  import Accounting

  /** One directory entry: whether d_type is DT_DIR, and the name, which holds no NUL. */
  datatype Entry = Entry(isDir: bool, name: string)

  datatype Directory = Unreadable | Listing(entries: seq<Entry>)

  predicate Numeric(e: Entry) { e.isDir && e.name != "" && AllDigits(e.name) }

  function ValueOf(name: string): int
    requires AllDigits(name)
  {
    ToLong(false, Decimal(name))
  }

  predicate Accepted(e: Entry) { Numeric(e) && ValueOf(e.name) > 0 }

  function PidOf(e: Entry): int
    requires Accepted(e)
  {
    ToInt(ValueOf(e.name))
  }

  /**
   The PID of a name is its value exactly if that is below 2^31. Beyond it is the value modulo 2^32, and -1
   from the largest long on.
   */
  lemma PidOfName(e: Entry)
    requires Accepted(e)
    ensures PidOf(e) == Decimal(e.name) <==> Decimal(e.name) < INT_SPAN / 2
    ensures Decimal(e.name) <= LONG_MAX ==> (PidOf(e) - Decimal(e.name)) % INT_SPAN == 0
    ensures Decimal(e.name) >= LONG_MAX ==> PidOf(e) == -1
  {
    ToIntIsModular(ValueOf(e.name));
  }

  /**
   A name can stand for PID 0, which no process has, as 4294967296 does: the test for a positive value comes
   before the narrowing.
   */
  lemma NameOfZero(n: nat)
    requires 0 < n <= LONG_MAX && n % INT_SPAN == 0
    ensures Accepted(Entry(true, Digits(n))) && PidOf(Entry(true, Digits(n))) == 0
  {
    DecimalOfDigits(n);
  }

  /** What is pushed for the entries, in their order. */
  function Pushed(entries: seq<Entry>): seq<int> {
    if entries == [] then []
    else
      var e := entries[|entries| - 1];
      Pushed(entries[..|entries| - 1]) + if Accepted(e) then [PidOf(e)] else []
  }

  lemma PushedStep(entries: seq<Entry>, n: nat)
    requires n < |entries|
    ensures Pushed(entries[..n + 1]) == Pushed(entries[..n]) + if Accepted(entries[n]) then [PidOf(entries[n])] else []
  {
    assert entries[..n + 1][..n] == entries[..n];
  }

  const AtMost: (int, int) -> bool := (a, b) => a <= b

  function Listed(entries: seq<Entry>): seq<int> { Sort(AtMost, Pushed(entries)) }

  /** A directory, named by digits only, of a value above zero whose narrowing is the PID. */
  predicate StandsFor(e: Entry, p: int) {
    && e.isDir && e.name != "" && AllDigits(e.name) && Decimal(e.name) > 0
    && p == ToInt(if Decimal(e.name) < LONG_MAX then Decimal(e.name) else LONG_MAX)
  }

  lemma StandsForIff(e: Entry, p: int)
    ensures StandsFor(e, p) <==> Accepted(e) && PidOf(e) == p
  {
  }

  /** The PIDs in the list, told from the listing alone. */
  lemma ListedIff(entries: seq<Entry>, p: int)
    ensures p in Listed(entries) <==> exists i :: 0 <= i < |entries| && StandsFor(entries[i], p)
  {
    SortSorts(AtMost, Pushed(entries));
    SameElements(Listed(entries), Pushed(entries));
    PushedAreAccepted(entries, p);
    if i :| 0 <= i < |entries| && Accepted(entries[i]) && PidOf(entries[i]) == p {
      StandsForIff(entries[i], p);
    }
    if i :| 0 <= i < |entries| && StandsFor(entries[i], p) {
      StandsForIff(entries[i], p);
    }
  }

  lemma {:induction false} PushedAreAccepted(entries: seq<Entry>, p: int)
    ensures p in Pushed(entries) <==> exists i :: 0 <= i < |entries| && Accepted(entries[i]) && PidOf(entries[i]) == p
  {
    if entries != [] {
      var before := entries[..|entries| - 1];
      PushedAreAccepted(before, p);
      assert forall i :: 0 <= i < |before| ==> before[i] == entries[i];
    }
  }

  /** No two accepted entries stand for the same PID. */
  ghost predicate NoDuplicates(entries: seq<Entry>) {
    forall i, j :: 0 <= i < j < |entries| && Accepted(entries[i]) && Accepted(entries[j]) ==> PidOf(entries[i]) != PidOf(entries[j])
  }

  ghost predicate NoRepeats(s: seq<int>) { forall i, j :: 0 <= i < j < |s| ==> s[i] != s[j] }

  lemma {:induction false} PushedRepeats(entries: seq<Entry>)
    ensures NoRepeats(Pushed(entries)) <==> NoDuplicates(entries)
  {
    if entries != [] {
      var before, e := entries[..|entries| - 1], entries[|entries| - 1];
      var was, now := Pushed(before), Pushed(entries);
      PushedRepeats(before);
      if NoDuplicates(entries) {
        assert NoDuplicates(before);
        if Accepted(e) {
          PushedAreAccepted(before, PidOf(e));
          assert forall i :: 0 <= i < |before| ==> before[i] == entries[i];
        }
      }
      if NoRepeats(now) {
        assert NoRepeats(was) by {
          assert forall i :: 0 <= i < |was| ==> was[i] == now[i];
        }
        if Accepted(e) {
          LastIsNew(was, PidOf(e));
          PushedAreAccepted(before, PidOf(e));
          NewKeepsApart(before, e);
        }
      }
    }
  }

  lemma LastIsNew(s: seq<int>, p: int)
    requires NoRepeats(s + [p])
    ensures p !in s
  {
    forall i | 0 <= i < |s|
      ensures s[i] != p
    {
      assert (s + [p])[i] != (s + [p])[|s|];
    }
  }

  lemma NewKeepsApart(before: seq<Entry>, e: Entry)
    requires NoDuplicates(before) && Accepted(e)
    requires forall i :: 0 <= i < |before| && Accepted(before[i]) ==> PidOf(before[i]) != PidOf(e)
    ensures NoDuplicates(before + [e])
  {
  }

  /** The list is in order whatever the listing; it is strictly so exactly if the listing names no PID twice. */
  lemma StrictIffNoDuplicates(entries: seq<Entry>)
    ensures Rising(Listed(entries)) && multiset(Listed(entries)) == multiset(Pushed(entries))
    ensures Ascending(Listed(entries)) <==> NoDuplicates(entries)
  {
    SortSorts(AtMost, Pushed(entries));
    DistinctCounts(Pushed(entries));
    DistinctCounts(Listed(entries));
    PushedRepeats(entries);
    InOrderIsRising(Listed(entries));
  }

  /** The code does not make the list free of duplicates: a listing that names a PID twice gives it twice. */
  lemma DuplicatesStay()
    ensures !Ascending(Listed([Entry(true, "7"), Entry(true, "07")]))
  {
    var entries := [Entry(true, "7"), Entry(true, "07")];
    assert "7"[..0] == "" && "07"[..1] == "0" && "0"[..0] == "";
    assert Decimal("7") == 7 && Decimal("07") == 7;
    assert Accepted(entries[0]) && Accepted(entries[1]) && PidOf(entries[0]) == PidOf(entries[1]);
    StrictIffNoDuplicates(entries);
  }

  lemma InOrderIsRising(s: seq<int>)
    requires InOrder(AtMost, s)
    ensures Rising(s) && (Ascending(s) <==> NoRepeats(s))
  {
    assert forall i, j :: 0 <= i < j < |s| ==> AtMost(s[i], s[j]);
  }

  /** Whatever sorting algorithm the C library has, the list is this one. */
  lemma AnySortWillDo(entries: seq<Entry>, r: seq<int>)
    requires SortOf(AtMost, Pushed(entries), r)
    ensures r == Listed(entries)
  {
    SortSorts(AtMost, Pushed(entries));
    SortIsUnique(AtMost, r, Listed(entries));
  }

  /**
   A directory as the kernel keeps it: one directory for each live process, named by its PID without
   leading zeros, and whatever else with names that are not all digits.
   */
  ghost predicate Mirrors(entries: seq<Entry>, live: set<int>) {
    && (forall p :: p in live ==> 0 < p < INT_SPAN / 2 && Entry(true, Digits(p)) in entries)
    && (forall i :: 0 <= i < |entries| && Numeric(entries[i]) ==> Decimal(entries[i].name) in live && entries[i].name == Digits(Decimal(entries[i].name)))
    && (forall i, j :: 0 <= i < j < |entries| && Numeric(entries[i]) && Numeric(entries[j]) ==> entries[i].name != entries[j].name)
  }

  /** The list is then the live PIDs in ascending order, each once. */
  lemma ListedAreTheLive(entries: seq<Entry>, live: set<int>)
    requires Mirrors(entries, live)
    ensures Ascending(Listed(entries))
    ensures forall p :: p in Listed(entries) <==> p in live
  {
    forall i | 0 <= i < |entries| && Numeric(entries[i])
      ensures Accepted(entries[i]) && PidOf(entries[i]) == Decimal(entries[i].name)
    {
      PidOfName(entries[i]);
    }
    StrictIffNoDuplicates(entries);
    SameElements(Listed(entries), Pushed(entries));
    forall p
      ensures p in Pushed(entries) <==> p in live
    {
      PushedAreAccepted(entries, p);
      if p in live {
        DecimalOfDigits(p);
        var i :| 0 <= i < |entries| && entries[i] == Entry(true, Digits(p));
        assert Numeric(entries[i]);
      }
    }
  }

  /** Every listing is one that the sweep can work with. */
  lemma SampleIsOrdered(entries: seq<Entry>, read: int -> Sample.Option<Accounting.Raw>, rows: seq<Sample.Info>, seconds: real, ticks: int)
    ensures Sample.Ordered(Accounting.Collected(Listed(entries), read, rows, seconds, ticks))
    ensures NoDuplicates(entries) ==> Sample.Sorted(Accounting.Collected(Listed(entries), read, rows, seconds, ticks))
  {
    StrictIffNoDuplicates(entries);
    Accounting.CollectedIsOrdered(Listed(entries), read, rows, seconds, ticks);
  }

  /** From the directory to the sample: the sweep's result is sorted and holds the live processes that could be read. */
  lemma SampleOfTheLive(entries: seq<Entry>, live: set<int>, read: int -> Sample.Option<Accounting.Raw>, rows: seq<Sample.Info>, seconds: real, ticks: int)
    requires Mirrors(entries, live)
    ensures var next := Accounting.Collected(Listed(entries), read, rows, seconds, ticks);
            Sample.Sorted(next) && forall pid :: Sample.Has(next, pid) <==> pid in live && read(pid).Some?
  {
    ListedAreTheLive(entries, live);
    Accounting.CollectedIsOrdered(Listed(entries), read, rows, seconds, ticks);
    Accounting.CollectedAreTheRead(Listed(entries), read, rows, seconds, ticks);
  }

  class PidList {
    var items: array<int>
    var count: nat

    ghost predicate Valid()
      reads this
    {
      count <= items.Length
    }

    ghost function Contents(): seq<int>
      requires Valid()
      reads this, items
    {
      items[..count]
    }

    constructor ()
      ensures Valid() && Contents() == [] && fresh(items)
    {
      items, count := new int[0], 0;
    }

    /** pid_list_push: the array doubles when it is full. */
    method Push(pid: int)
      requires Valid()
      modifies this, items
      ensures Valid() && Contents() == old(Contents()) + [pid]
      ensures items == old(items) || (fresh(items) && items.Length == if old(items.Length) == 0 then 256 else 2 * old(items.Length))
      ensures items != old(items) <==> old(count == items.Length)
    {
      if count == items.Length {
        var grown := new int[if items.Length == 0 then 256 else items.Length * 2];
        forall i | 0 <= i < count {
          grown[i] := items[i];
        }
        items := grown;
      }
      items[count] := pid;
      count := count + 1;
    }

    /** km_proc_list_pids: false and empty if the directory cannot be opened. */
    method ListPids(dir: Directory) returns (ok: bool)
      requires Valid()
      modifies this, items
      ensures Valid() && ok == dir.Listing?
      ensures items == old(items) || fresh(items)
      ensures Contents() == if dir.Listing? then Listed(dir.entries) else []
    {
      count := 0;
      if dir.Unreadable? {
        return false;
      }
      PushAll(dir.entries);
      SortInPlace();
      return true;
    }

    method PushAll(entries: seq<Entry>)
      requires Valid() && count == 0
      modifies this, items
      ensures Valid() && Contents() == Pushed(entries)
      ensures items == old(items) || fresh(items)
    {
      var n := 0;
      while n < |entries|
        invariant 0 <= n <= |entries|
        invariant Valid() && Contents() == Pushed(entries[..n])
        invariant items == old(items) || fresh(items)
      {
        PushedStep(entries, n);
        Consider(entries[n]);
        n := n + 1;
      }
      assert entries[..n] == entries;
    }

    /** The body of the loop: what is no directory, no number or no positive one is passed over. */
    method Consider(e: Entry)
      requires Valid()
      modifies this, items
      ensures Valid() && Contents() == old(Contents()) + if Accepted(e) then [PidOf(e)] else []
      ensures items == old(items) || fresh(items)
    {
      if !e.isDir {
        return;
      }
      var numeric := IsNumeric(e.name);
      if !numeric || e.name == "" {
        return;
      }
      var value := ValueOf(e.name);
      if value > 0 {
        Push(ToInt(value));
      }
    }

    method SortInPlace()
      requires Valid()
      modifies items
      ensures Contents() == Sort(AtMost, old(Contents()))
    {
      var sorted := Sort(AtMost, items[..count]);
      forall i | 0 <= i < count {
        items[i] := sorted[i];
      }
      assert items[..count] == sorted;
    }
  }

  /** The scan over one name stops at the first character that is no digit. */
  method IsNumeric(name: string) returns (numeric: bool)
    ensures numeric == AllDigits(name)
  {
    numeric := true;
    var p := 0;
    while p < |name|
      invariant 0 <= p <= |name| && numeric
      invariant AllDigits(name[..p])
    {
      if !IsDigit(name[p]) {
        return false;
      }
      assert name[..p + 1] == name[..p] + [name[p]];
      p := p + 1;
    }
    assert name[..p] == name;
  }
}
