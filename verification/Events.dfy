/**
 Creation and termination events: what the comparison of two samples yields, what the events of a
 whole run say about each process, and the window that keeps the last of them.
 */
module Events {
  import opened Sample

  datatype Kind = Created | Terminated

  datatype Event = Event(kind: Kind, pid: int, name: string)

  const MAX_EVENTS: nat := 100

  /** One event for each of `items` whose PID is not in `other`, in order. */
  ghost function Unmatched(kind: Kind, items: seq<Info>, other: seq<Info>): seq<Event> {
    if items == [] then []
    else
      var last := items[|items| - 1];
      var before := Unmatched(kind, items[..|items| - 1], other);
      if Has(other, last.pid) then before else before + [Event(kind, last.pid, last.name)]
  }

  /** What detect_changes adds when `next` replaces `rows`. */
  ghost function Changes(rows: seq<Info>, next: seq<Info>): seq<Event> {
    Unmatched(Created, next, rows) + Unmatched(Terminated, rows, next)
  }

  ghost function Current(samples: seq<seq<Info>>): seq<Info> {
    if samples == [] then [] else samples[|samples| - 1]
  }

  /** Everything ever recorded in a run that published these samples. */
  ghost function AllEvents(samples: seq<seq<Info>>): seq<Event> {
    if samples == [] then []
    else
      var before := samples[..|samples| - 1];
      AllEvents(before) + Changes(Current(before), samples[|samples| - 1])
  }

  ghost predicate AllSorted(samples: seq<seq<Info>>) {
    forall k :: 0 <= k < |samples| ==> Sorted(samples[k])
  }

  // ---- The events of one process ----

  ghost function OfPid(events: seq<Event>, pid: int): seq<Event> {
    if events == [] then []
    else
      var before := OfPid(events[..|events| - 1], pid);
      if events[|events| - 1].pid == pid then before + [events[|events| - 1]] else before
  }

  lemma {:induction false} OfPidConcat(a: seq<Event>, b: seq<Event>, pid: int)
    ensures OfPid(a + b, pid) == OfPid(a, pid) + OfPid(b, pid)
  {
    if b == [] {
      assert a + b == a;
    } else {
      assert (a + b)[..|a + b| - 1] == a + b[..|b| - 1];
      OfPidConcat(a, b[..|b| - 1], pid);
    }
  }

  /** How many rows a process has in a sample. */
  function CountOf(items: seq<Info>, pid: int): nat {
    if items == [] then 0 else CountOf(items[..|items| - 1], pid) + if items[|items| - 1].pid == pid then 1 else 0
  }

  lemma {:induction false} CountIsHas(items: seq<Info>, pid: int)
    ensures CountOf(items, pid) > 0 <==> Has(items, pid)
    ensures Sorted(items) ==> CountOf(items, pid) <= 1
  {
    if items != [] {
      var before := items[..|items| - 1];
      CountIsHas(before, pid);
      if Has(before, pid) {
        var i :| 0 <= i < |before| && before[i].pid == pid;
        assert items[i].pid == pid;
      }
      if Has(items, pid) && items[|items| - 1].pid != pid {
        var i :| 0 <= i < |items| && items[i].pid == pid;
        assert before[i].pid == pid;
      }
    }
  }

  ghost predicate AllOf(own: seq<Event>, kind: Kind) { forall k :: 0 <= k < |own| ==> own[k].kind == kind }

  lemma {:induction false} OfPidKind(kind: Kind, items: seq<Info>, other: seq<Info>, pid: int)
    ensures AllOf(OfPid(Unmatched(kind, items, other), pid), kind)
  {
    if items != [] {
      var before, last := items[..|items| - 1], items[|items| - 1];
      OfPidKind(kind, before, other, pid);
      if !Has(other, last.pid) {
        OfPidOneMore(Unmatched(kind, before, other), Event(kind, last.pid, last.name), pid);
      }
    }
  }

  lemma OfPidUnmatched(kind: Kind, items: seq<Info>, other: seq<Info>, pid: int)
    ensures var own := OfPid(Unmatched(kind, items, other), pid);
            |own| == (if Has(other, pid) then 0 else CountOf(items, pid)) && AllOf(own, kind)
  {
    OfPidKind(kind, items, other, pid);
    OfPidCount(kind, items, other, pid);
  }

  lemma {:induction false} OfPidCount(kind: Kind, items: seq<Info>, other: seq<Info>, pid: int)
    ensures |OfPid(Unmatched(kind, items, other), pid)| == if Has(other, pid) then 0 else CountOf(items, pid)
  {
    if items != [] {
      var before, last := items[..|items| - 1], items[|items| - 1];
      OfPidCount(kind, before, other, pid);
      if !Has(other, last.pid) {
        OfPidOneMore(Unmatched(kind, before, other), Event(kind, last.pid, last.name), pid);
      }
    }
  }

  lemma OfPidOneMore(events: seq<Event>, e: Event, pid: int)
    ensures OfPid(events + [e], pid) == OfPid(events, pid) + if e.pid == pid then [e] else []
  {
    assert (events + [e])[..|events|] == events;
  }

  /**
   A process gets events exactly when it is in one of two consecutive samples and not in the other: one for
   each row it has there, all of the same kind.
   */
  lemma OfPidChanges(rows: seq<Info>, next: seq<Info>, pid: int)
    ensures var own := OfPid(Changes(rows, next), pid);
            && AllOf(own, if Has(next, pid) then Created else Terminated)
            && |own| == (if Has(rows, pid) == Has(next, pid) then 0 else if Has(next, pid) then CountOf(next, pid) else CountOf(rows, pid))
  {
    OfPidConcat(Unmatched(Created, next, rows), Unmatched(Terminated, rows, next), pid);
    OfPidUnmatched(Created, next, rows, pid);
    OfPidUnmatched(Terminated, rows, next, pid);
    CountIsHas(rows, pid);
    CountIsHas(next, pid);
  }

  ghost predicate HasNamed(items: seq<Info>, pid: int, name: string) {
    exists i :: 0 <= i < |items| && items[i].pid == pid && items[i].name == name
  }

  lemma NamedOneMore(items: seq<Info>, n: nat)
    requires n < |items|
    ensures forall e: Event ::
      HasNamed(items[..n + 1], e.pid, e.name) <==> HasNamed(items[..n], e.pid, e.name) || (items[n].pid == e.pid && items[n].name == e.name)
  {
    assert forall i :: 0 <= i < n ==> items[..n + 1][i] == items[..n][i];
    assert items[..n + 1][n] == items[n];
  }

  /** Every event is of a row that has no counterpart, and carries its PID and name. */
  lemma {:induction false} UnmatchedAreRows(kind: Kind, items: seq<Info>, other: seq<Info>)
    ensures forall e :: e in Unmatched(kind, items, other) <==>
      e.kind == kind && !Has(other, e.pid) && HasNamed(items, e.pid, e.name)
  {
    if items != [] {
      var n := |items| - 1;
      UnmatchedAreRows(kind, items[..n], other);
      NamedOneMore(items, n);
      assert items[..n + 1] == items;
    }
  }

  ghost predicate PidsRise(events: seq<Event>) { forall i, j :: 0 <= i < j < |events| ==> events[i].pid <= events[j].pid }

  lemma {:induction false} UnmatchedRise(kind: Kind, items: seq<Info>, other: seq<Info>)
    requires Ordered(items)
    ensures PidsRise(Unmatched(kind, items, other))
  {
    if items != [] {
      var n := |items| - 1;
      var before := Unmatched(kind, items[..n], other);
      UnmatchedRise(kind, items[..n], other);
      UnmatchedAreRows(kind, items[..n], other);
      forall k | 0 <= k < |before|
        ensures before[k].pid <= items[n].pid
      {
        assert before[k] in before;
        var i :| 0 <= i < n && items[..n][i].pid == before[k].pid;
        assert items[i].pid == before[k].pid;
      }
    }
  }

  /**
   What one comparison records, and in which order: first the creations, of rows of the new sample whose PID is not
   in the old one, and then the terminations, the other way round; both in PID order, and each with the row's name.
   */
  lemma ChangesInTurn(rows: seq<Info>, next: seq<Info>) returns (n: nat)
    requires Ordered(rows) && Ordered(next)
    ensures n <= |Changes(rows, next)|
    ensures PidsRise(Changes(rows, next)[..n]) && PidsRise(Changes(rows, next)[n..])
    ensures forall e :: e in Changes(rows, next)[..n] <==>
      e.kind == Created && !Has(rows, e.pid) && HasNamed(next, e.pid, e.name)
    ensures forall e :: e in Changes(rows, next)[n..] <==>
      e.kind == Terminated && !Has(next, e.pid) && HasNamed(rows, e.pid, e.name)
  {
    var created, terminated := Unmatched(Created, next, rows), Unmatched(Terminated, rows, next);
    n := |created|;
    assert Changes(rows, next)[..n] == created && Changes(rows, next)[n..] == terminated;
    UnmatchedAreRows(Created, next, rows);
    UnmatchedAreRows(Terminated, rows, next);
    UnmatchedRise(Created, next, rows);
    UnmatchedRise(Terminated, rows, next);
  }

  function Expected(k: nat): Kind { if k % 2 == 0 then Created else Terminated }

  ghost predicate Alternating(own: seq<Event>) {
    forall k :: 0 <= k < |own| ==> own[k].kind == Expected(k)
  }

  /** If the process comes or goes, it has one row where it is. */
  ghost predicate OneRow(rows: seq<Info>, next: seq<Info>, pid: int) {
    Has(rows, pid) != Has(next, pid) ==> CountOf(if Has(next, pid) then next else rows, pid) == 1
  }

  ghost predicate ComesAndGoesAsOne(samples: seq<seq<Info>>, pid: int) {
    samples != [] ==>
      && ComesAndGoesAsOne(samples[..|samples| - 1], pid)
      && OneRow(Current(samples[..|samples| - 1]), samples[|samples| - 1], pid)
  }

  /** Events of one kind go on alternating exactly if they are none, or one and of the kind that is due. */
  lemma AlternatingAppend(own: seq<Event>, more: seq<Event>, kind: Kind)
    requires AllOf(more, kind)
    ensures Alternating(own + more) <==> Alternating(own) && (|more| == 0 || (|more| == 1 && kind == Expected(|own|)))
  {
    var all := own + more;
    assert forall k :: 0 <= k < |own| ==> own[k] == all[k];
    if |more| > 0 {
      assert all[|own|] == more[0];
    }
    if |more| > 1 {
      assert all[|own| + 1] == more[1];
    }
  }

  /**
   Over a whole run the events of a process alternate, starting with its creation, exactly if it never comes
   or goes in more than one row; and then it is in the current sample exactly if the event due next is a
   termination.
   */
  lemma {:induction false} AlternateIffOne(samples: seq<seq<Info>>, pid: int)
    ensures Alternating(OfPid(AllEvents(samples), pid)) <==> ComesAndGoesAsOne(samples, pid)
    ensures ComesAndGoesAsOne(samples, pid) ==>
      (Has(Current(samples), pid) <==> Expected(|OfPid(AllEvents(samples), pid)|) == Terminated)
  {
    if samples != [] {
      var before := samples[..|samples| - 1];
      var rows, next := Current(before), samples[|samples| - 1];
      AlternateIffOne(before, pid);
      OneMoreAlternates(OfPid(AllEvents(before), pid), rows, next, pid);
      OfPidConcat(AllEvents(before), Changes(rows, next), pid);
    }
  }

  lemma OneMoreAlternates(own: seq<Event>, rows: seq<Info>, next: seq<Info>, pid: int)
    requires Alternating(own) ==> (Has(rows, pid) <==> Expected(|own|) == Terminated)
    ensures var all := own + OfPid(Changes(rows, next), pid);
            && (Alternating(all) <==> Alternating(own) && OneRow(rows, next, pid))
            && (Alternating(all) ==> (Has(next, pid) <==> Expected(|all|) == Terminated))
  {
    CountIsHas(rows, pid);
    CountIsHas(next, pid);
    OfPidChanges(rows, next, pid);
    AlternatingAppend(own, OfPid(Changes(rows, next), pid), if Has(next, pid) then Created else Terminated);
  }

  /** A process that comes in two rows is created twice. */
  lemma TwoRowsTwoEvents(p: Info)
    ensures !Alternating(OfPid(AllEvents([[p, p]]), p.pid))
  {
    var samples := [[p, p]];
    CountOneMore([], p);
    CountOneMore([p], p);
    assert [] + [p] == [p] && [p] + [p] == [p, p] && samples[..0] == [];
    CountIsHas([p, p], p.pid);
    AlternateIffOne(samples, p.pid);
  }

  lemma CountOneMore(items: seq<Info>, p: Info)
    ensures CountOf(items + [p], p.pid) == CountOf(items, p.pid) + 1
  {
    assert (items + [p])[..|items|] == items;
  }

  /** Without duplicates they always alternate. */
  lemma EventsAlternate(samples: seq<seq<Info>>, pid: int)
    requires AllSorted(samples)
    ensures Alternating(OfPid(AllEvents(samples), pid))
    ensures Has(Current(samples), pid) <==> Expected(|OfPid(AllEvents(samples), pid)|) == Terminated
  {
    SortedIsOne(samples, pid);
    AlternateIffOne(samples, pid);
  }

  lemma {:induction false} SortedIsOne(samples: seq<seq<Info>>, pid: int)
    requires AllSorted(samples)
    ensures ComesAndGoesAsOne(samples, pid)
  {
    if samples != [] {
      var before := samples[..|samples| - 1];
      SortedIsOne(before, pid);
      CountIsHas(Current(before), pid);
      CountIsHas(samples[|samples| - 1], pid);
    }
  }

  // ---- Replaying the events ----

  function Replay(live: set<int>, events: seq<Event>): set<int> {
    if events == [] then live
    else
      var before := Replay(live, events[..|events| - 1]);
      var last := events[|events| - 1];
      if last.kind == Created then before + {last.pid} else before - {last.pid}
  }

  lemma {:induction false} ReplayConcat(live: set<int>, a: seq<Event>, b: seq<Event>)
    ensures Replay(live, a + b) == Replay(Replay(live, a), b)
  {
    if b == [] {
      assert a + b == a;
    } else {
      assert (a + b)[..|a + b| - 1] == a + b[..|b| - 1];
      ReplayConcat(live, a, b[..|b| - 1]);
    }
  }

  lemma {:induction false} ReplayCreated(live: set<int>, items: seq<Info>, other: seq<Info>)
    ensures Replay(live, Unmatched(Created, items, other)) == live + (PidSet(items) - PidSet(other))
  {
    if items != [] {
      var before := items[..|items| - 1];
      var last := items[|items| - 1];
      ReplayCreated(live, before, other);
      assert PidSet(items) == PidSet(before) + {last.pid};
      assert Has(other, last.pid) <==> last.pid in PidSet(other);
      if !Has(other, last.pid) {
        ReplayConcat(live, Unmatched(Created, before, other), [Event(Created, last.pid, last.name)]);
      }
    }
  }

  lemma {:induction false} ReplayTerminated(live: set<int>, items: seq<Info>, other: seq<Info>)
    ensures Replay(live, Unmatched(Terminated, items, other)) == live - (PidSet(items) - PidSet(other))
  {
    if items != [] {
      var before := items[..|items| - 1];
      var last := items[|items| - 1];
      ReplayTerminated(live, before, other);
      assert PidSet(items) == PidSet(before) + {last.pid};
      assert Has(other, last.pid) <==> last.pid in PidSet(other);
      if !Has(other, last.pid) {
        ReplayConcat(live, Unmatched(Terminated, before, other), [Event(Terminated, last.pid, last.name)]);
      }
    }
  }

  /** Replaying every event of a run from nothing gives the processes of the current sample. */
  lemma {:induction false} ReplayGivesCurrent(samples: seq<seq<Info>>)
    ensures Replay({}, AllEvents(samples)) == PidSet(Current(samples))
  {
    if samples != [] {
      var rows := Current(samples[..|samples| - 1]);
      var next := samples[|samples| - 1];
      ReplayGivesCurrent(samples[..|samples| - 1]);
      ReplayConcat({}, AllEvents(samples[..|samples| - 1]), Changes(rows, next));
      ReplayConcat(PidSet(rows), Unmatched(Created, next, rows), Unmatched(Terminated, rows, next));
      ReplayCreated(PidSet(rows), next, rows);
      ReplayTerminated(PidSet(rows) + (PidSet(next) - PidSet(rows)), rows, next);
    }
  }

  // ---- The window ----

  function LastOf<T>(s: seq<T>, n: nat): (r: seq<T>)
    ensures |r| == if |s| <= n then |s| else n
  {
    if |s| <= n then s else s[|s| - n..]
  }

  /** The elements are counted from the end. */
  lemma LastOfAt<T>(s: seq<T>, n: nat, i: nat)
    requires i < |LastOf(s, n)|
    ensures LastOf(s, n)[i] == s[|s| - |LastOf(s, n)| + i]
  {
  }

  /** Keeping only the last n before appending loses nothing of the last n. */
  lemma LastOfConcat<T>(a: seq<T>, b: seq<T>, n: nat)
    ensures LastOf(LastOf(a, n) + b, n) == LastOf(a + b, n)
  {
    var kept := LastOf(a, n);
    var l, r := LastOf(kept + b, n), LastOf(a + b, n);
    forall i | 0 <= i < |l|
      ensures l[i] == r[i]
    {
      SameFromTheEnd(a, b, n, i);
    }
  }

  lemma SameFromTheEnd<T>(a: seq<T>, b: seq<T>, n: nat, i: nat)
    requires i < |LastOf(a + b, n)| == |LastOf(LastOf(a, n) + b, n)|
    ensures LastOf(LastOf(a, n) + b, n)[i] == LastOf(a + b, n)[i]
  {
    var kept := LastOf(a, n);
    LastOfAt(kept + b, n, i);
    LastOfAt(a + b, n, i);
    var k := |kept + b| - |LastOf(a + b, n)| + i;
    if k < |kept| {
      LastOfAt(a, n, k);
    }
  }

  lemma LastOfLast<T>(s: seq<T>, m: nat, n: nat)
    requires m <= n
    ensures LastOf(LastOf(s, n), m) == LastOf(s, m)
  {
  }

  /** One more item is considered. */
  lemma UnmatchedStep(kind: Kind, items: seq<Info>, i: nat, other: seq<Info>)
    requires i < |items|
    ensures Unmatched(kind, items[..i + 1], other)
         == Unmatched(kind, items[..i], other)
            + if Has(other, items[i].pid) then [] else [Event(kind, items[i].pid, items[i].name)]
  {
    assert items[..i + 1][..i] == items[..i];
  }
}
