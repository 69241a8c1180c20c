/**
 The process monitor of src/process/process_monitor.c: two buffers that are swapped, a window of
 events, and the clock of the last sweep, with everything that was ever published as ghost state.
 */
module ProcessMonitor {
  import opened Sample
  import opened Sorting
  import opened Events
  import opened Accounting
  import opened Clock

  class Monitor {
    var processes: array<Info>
    var count: nat
    var incoming: array<Info>
    var incomingCount: nat
    var events: array<Event>
    var eventCount: nat
    var lastSample: Timespec
    var haveLastSample: bool
    const clockTicks: int

    /** The samples published so far, the sweeps they were made in, and the sweep of the pending one. */
    ghost var samples: seq<seq<Info>>
    ghost var sweeps: seq<Sweep>
    ghost var pending: Sweep

    ghost function Rows(): seq<Info>
      requires count <= processes.Length
      reads this`processes, this`count, processes
    {
      processes[..count]
    }

    ghost function Pending(): seq<Info>
      requires incomingCount <= incoming.Length
      reads this`incoming, this`incomingCount, incoming
    {
      incoming[..incomingCount]
    }

    ghost function Window(): seq<Event>
      requires eventCount <= events.Length
      reads this`events, this`eventCount, events
    {
      events[..eventCount]
    }

    ghost predicate Shape()
      reads this
    {
      && processes != incoming
      && count <= processes.Length && incomingCount <= incoming.Length
      && events.Length == MAX_EVENTS && eventCount <= MAX_EVENTS
    }

    /** The published side: the current rows, and the events of the whole run. */
    ghost predicate PublishedOk()
      requires count <= processes.Length && eventCount <= events.Length
      reads this`processes, this`count, this`events, this`eventCount, this`samples, this`sweeps, processes, events
    {
      && Rows() == Current(samples) && Ordered(Rows())
      && Swept(samples, sweeps, clockTicks)
      && Window() == LastOf(AllEvents(samples), MAX_EVENTS)
    }

    ghost predicate PendingOk()
      requires Shape()
      reads this, processes, incoming
    {
      && Ordered(Pending()) && Rising(pending.listing)
      && Pending() == Collected(pending.listing, pending.read, Rows(), pending.gap, clockTicks)
    }

    ghost predicate Valid()
      reads this, processes, incoming, events
    {
      Shape() && PublishedOk() && PendingOk()
    }

    constructor (ticks: int)
      ensures Valid() && samples == [] && Window() == [] && fresh(processes) && fresh(incoming) && fresh(events)
    {
      clockTicks := ticks;
      processes, count := new Info[0], 0;
      incoming, incomingCount := new Info[0], 0;
      events := new Event[MAX_EVENTS](_ => Event(Created, 0, ""));
      eventCount := 0;
      lastSample, haveLastSample := Timespec(0, 0), false;
      samples, sweeps, pending := [], [], Sweep([], _ => None, 0.0);
    }

    /** km_process_monitor_find. */
    method Find(pid: int) returns (index: int)
      requires Valid()
      ensures index == Position(Rows(), pid)
    {
      index := FindIn(processes, count, pid);
    }

    /** incoming_reserve: room for one more row, by doubling. */
    method Reserve()
      requires Shape()
      modifies this`incoming
      ensures Shape() && incomingCount < incoming.Length && Pending() == old(Pending())
      ensures incoming == old(incoming) || fresh(incoming)
      ensures incoming.Length ==
        var capacity := old(incoming.Length);
        if incomingCount < capacity then capacity else if capacity == 0 then 512 else 2 * capacity
    {
      if incomingCount == incoming.Length {
        var grown := new Info[if incoming.Length == 0 then 512 else incoming.Length * 2];
        forall i | 0 <= i < incomingCount {
          grown[i] := incoming[i];
        }
        incoming := grown;
      }
    }

    /** push_event: a full window drops its oldest entry first. */
    method PushEvent(e: Event)
      requires Shape()
      modifies events, this`eventCount
      ensures Shape() && Window() == LastOf(old(Window()) + [e], MAX_EVENTS)
    {
      if eventCount == MAX_EVENTS {
        forall i | 0 <= i < MAX_EVENTS - 1 {
          events[i] := events[i + 1];
        }
        eventCount := MAX_EVENTS - 1;
      }
      events[eventCount] := e;
      eventCount := eventCount + 1;
    }

    /** The body of both loops of detect_changes. */
    method Consider(kind: Kind, p: Info, other: array<Info>, m: nat)
      requires Shape() && m <= other.Length && Ordered(other[..m])
      modifies events, this`eventCount
      ensures Shape()
      ensures Window() == LastOf(old(Window()) + (if Has(other[..m], p.pid) then [] else [Event(kind, p.pid, p.name)]), MAX_EVENTS)
    {
      var index := FindIn(other, m, p.pid);
      if index < 0 {
        PushEvent(Event(kind, p.pid, p.name));
      } else {
        assert Window() + [] == Window();
      }
    }

    method PushUnmatched(kind: Kind, items: array<Info>, n: nat, other: array<Info>, m: nat)
      requires Shape() && n <= items.Length && m <= other.Length && Ordered(other[..m])
      modifies events, this`eventCount
      ensures Shape()
      ensures Window() == LastOf(old(Window()) + Unmatched(kind, items[..n], other[..m]), MAX_EVENTS)
    {
      ghost var before, rows, others := Window(), items[..n], other[..m];
      assert before + [] == before;
      assert rows[..n] == rows;
      for i := 0 to n
        invariant Shape()
        invariant Window() == LastOf(before + Unmatched(kind, rows[..i], others), MAX_EVENTS)
      {
        Consider(kind, items[i], other, m);
        OneMore(before, kind, rows, i, others);
      }
    }

    /** The window of a history becomes the window of the longer history. */
    method DetectChanges(ghost history: seq<Event>)
      requires Shape() && Ordered(Rows()) && Ordered(Pending()) && Window() == LastOf(history, MAX_EVENTS)
      modifies events, this`eventCount
      ensures Shape() && Window() == LastOf(history + Changes(Rows(), Pending()), MAX_EVENTS)
    {
      ghost var before, rows, next := Window(), Rows(), Pending();
      PushUnmatched(Created, incoming, incomingCount, processes, count);
      PushUnmatched(Terminated, processes, count, incoming, incomingCount);
      TwoPasses(before, rows, next);
      LastOfConcat(history, Changes(rows, next), MAX_EVENTS);
    }

    /** The pending sample is published and joins the history, with the sweep it was made in. */
    method Publish()
      requires Valid()
      modifies this`processes, this`count, this`incoming, this`incomingCount, this`eventCount,
               this`samples, this`sweeps, this`pending, events
      ensures Valid() && events == old(events)
      ensures Rows() == old(Pending()) && samples == old(samples) + [old(Pending())]
      ensures sweeps == old(sweeps) + [old(pending)] && incomingCount == 0
    {
      ghost var next := Pending();
      DetectAndSwap();
      OneMoreSample(samples, sweeps, next, pending, clockTicks);
      samples, sweeps := samples + [next], sweeps + [pending];
      pending := pending.(listing := []);
    }

    method DetectAndSwap()
      requires Valid()
      modifies this`processes, this`count, this`incoming, this`incomingCount, this`eventCount, events
      ensures Shape() && events == old(events) && incomingCount == 0
      ensures Rows() == old(Pending())
      ensures Window() == LastOf(AllEvents(samples) + Changes(Current(samples), old(Pending())), MAX_EVENTS)
    {
      DetectChanges(AllEvents(samples));
      var tmp := processes;
      processes, count := incoming, incomingCount;
      incoming, incomingCount := tmp, 0;
    }

    /**
     km_process_monitor_collect: the sweep, given the listing of PIDs and the kernel's answer for each
     process. It writes only the scratch buffer and the sample clock.
     */
    method Collect(listing: seq<int>, read: int -> Option<Raw>, now: Timespec)
      requires Valid() && Rising(listing)
      modifies this`incoming, this`incomingCount, this`lastSample, this`haveLastSample, this`pending, incoming
      ensures Valid() && (incoming == old(incoming) || fresh(incoming))
      ensures pending == Sweep(listing, read, if old(haveLastSample) then DiffSeconds(old(lastSample), now) else 0.0)
      ensures lastSample == now && haveLastSample
      ensures Pending() == Collected(listing, read, Rows(), pending.gap, clockTicks)
      ensures forall pid :: Has(Pending(), pid) <==> pid in listing && read(pid).Some?
      ensures AnswersIn(Pending(), listing, read)
    {
      var seconds := TakeTime(now);
      SweepAll(listing, read, seconds);
      pending := Sweep(listing, read, seconds);
      SampleIsRead(listing, read, Rows(), seconds, clockTicks, Pending());
    }

    /** The start of the sweep: an empty buffer, and the time since the last one. */
    method TakeTime(now: Timespec) returns (seconds: real)
      requires Shape() && PublishedOk()
      modifies this`incomingCount, this`lastSample, this`haveLastSample
      ensures Shape() && PublishedOk() && incomingCount == 0
      ensures seconds == if old(haveLastSample) then DiffSeconds(old(lastSample), now) else 0.0
      ensures lastSample == now && haveLastSample
    {
      incomingCount := 0;
      seconds := 0.0;
      if haveLastSample {
        seconds := DiffSeconds(lastSample, now);
      }
      lastSample, haveLastSample := now, true;
    }

    method SweepAll(listing: seq<int>, read: int -> Option<Raw>, seconds: real)
      requires Shape() && Ordered(Rows()) && incomingCount == 0
      modifies this`incoming, this`incomingCount, incoming
      ensures Shape() && (incoming == old(incoming) || fresh(incoming))
      ensures Pending() == Collected(listing, read, Rows(), seconds, clockTicks)
    {
      assert listing[..|listing|] == listing;
      for i := 0 to |listing|
        invariant Shape() && Ordered(Rows())
        invariant incoming == old(incoming) || fresh(incoming)
        invariant Pending() == Collected(listing[..i], read, Rows(), seconds, clockTicks)
      {
        assert listing[..i + 1][..i] == listing[..i];
        var answer := read(listing[i]);
        if answer.Some? {
          Append(listing[i], answer.value, seconds);
        }
      }
    }

    /** The body of the sweep's loop for a process that could be read. */
    method Append(pid: int, raw: Raw, seconds: real)
      requires Shape() && Ordered(Rows())
      modifies this`incoming, this`incomingCount, incoming
      ensures Shape() && (incoming == old(incoming) || fresh(incoming))
      ensures Pending() == old(Pending()) + [Row(pid, raw, Lookup(Rows(), pid), seconds, clockTicks)]
    {
      ghost var before := Pending();
      Reserve();
      var row := Info(pid, raw.ppid, raw.name, raw.utime, raw.stime, raw.minflt, raw.majflt, 0.0, 0.0, 0.0);
      var index := FindIn(processes, count, pid);
      if index >= 0 {
        var previous := processes[index];
        row := row.(cpuPercent := CpuPercent(Total(previous), Total(row), seconds, clockTicks),
                    minfltRate := Rate(previous.minflt, row.minflt, seconds),
                    majfltRate := Rate(previous.majflt, row.majflt, seconds));
      }
      incoming[incomingCount] := row;
      incomingCount := incomingCount + 1;
      assert Pending()[..|before|] == before;
    }

    /** km_process_monitor_update. */
    method Update(listing: seq<int>, read: int -> Option<Raw>, now: Timespec)
      requires Valid() && Rising(listing)
      modifies this, incoming, events
      ensures Valid()
      ensures sweeps == old(sweeps) + [Sweep(listing, read, if old(haveLastSample) then DiffSeconds(old(lastSample), now) else 0.0)]
      ensures samples == old(samples) + [Rows()]
      ensures forall pid :: Has(Rows(), pid) <==> pid in listing && read(pid).Some?
      ensures AnswersIn(Rows(), listing, read)
    {
      Collect(listing, read, now);
      Publish();
    }

    /** km_process_monitor_recent_events: where the last `n` of the window begin, and how many there are. */
    method RecentEvents(n: nat) returns (start: nat, length: nat)
      requires Valid()
      ensures start + length == eventCount
      ensures var all, most := AllEvents(samples), if n < 100 then n else 100;
              length == (if |all| < most then |all| else most) && events[start..start + length] == all[|all| - length..]
    {
      start, length := LastEvents(n, AllEvents(samples));
    }

    method LastEvents(n: nat, ghost history: seq<Event>) returns (start: nat, length: nat)
      requires eventCount <= events.Length && Window() == LastOf(history, MAX_EVENTS)
      ensures start + length == eventCount
      ensures var most := if n < MAX_EVENTS then n else MAX_EVENTS;
              && length == (if |history| < most then |history| else most)
              && events[start..start + length] == history[|history| - length..]
    {
      ghost var window := Window();
      RecentOfWindow(window, history, n);
      if n >= eventCount {
        start, length := 0, eventCount;
      } else {
        start, length := eventCount - n, n;
      }
      assert events[start..start + length] == window[start..];
    }
  }

  /**
   What a monitor shows at any moment of any run: its rows are in order, its events, replayed from nothing,
   give its rows, those of a process alternate exactly if it never came or went in more than one row, and no
   figure in it is negative.
  */
  lemma WholeRun(m: Monitor, pid: int)
    requires m.Valid()
    ensures Ordered(m.Rows()) && Replay({}, AllEvents(m.samples)) == PidSet(m.Rows())
    ensures Alternating(OfPid(AllEvents(m.samples), pid)) <==> ComesAndGoesAsOne(m.samples, pid)
    ensures ComesAndGoesAsOne(m.samples, pid) ==>
      (Has(m.Rows(), pid) <==> Expected(|OfPid(AllEvents(m.samples), pid)|) == Terminated)
    ensures forall k :: 0 <= k < m.count ==>
      var p := m.Rows()[k]; p.cpuPercent >= 0.0 && p.minfltRate >= 0.0 && p.majfltRate >= 0.0
  {
    ReplayGivesCurrent(m.samples);
    AlternateIffOne(m.samples, pid);
    CurrentIsNeverNegative(m.samples, m.sweeps, m.clockTicks);
  }

  lemma CurrentIsNeverNegative(samples: seq<seq<Info>>, sweeps: seq<Sweep>, ticks: int)
    requires Swept(samples, sweeps, ticks)
    ensures forall k :: 0 <= k < |Current(samples)| ==>
      var p := Current(samples)[k]; p.cpuPercent >= 0.0 && p.minfltRate >= 0.0 && p.majfltRate >= 0.0
  {
    if samples != [] {
      NeverNegative(samples, sweeps, ticks, |samples| - 1);
    }
  }

  /** And the rows are the kernel's answers to the last sweep. */
  lemma RowsAreTheAnswers(m: Monitor, pid: int)
    requires m.Valid() && m.sweeps != []
    ensures var w := m.sweeps[|m.sweeps| - 1];
            && (Has(m.Rows(), pid) <==> pid in w.listing && w.read(pid).Some?)
            && (Has(m.Rows(), pid) ==>
                  var p := RowOf(m.Rows(), pid);
                  w.read(pid) == Some(Raw(p.ppid, p.name, p.utime, p.stime, p.minflt, p.majflt)))
  {
    SampleIsTheAnswers(m.samples, m.sweeps, m.clockTicks, |m.samples| - 1, pid);
  }

  lemma SampleIsRead(listing: seq<int>, read: int -> Option<Raw>, rows: seq<Info>, seconds: real, ticks: int, next: seq<Info>)
    requires Rising(listing) && next == Collected(listing, read, rows, seconds, ticks)
    ensures Ordered(next) && AnswersIn(next, listing, read)
    ensures forall pid :: Has(next, pid) <==> pid in listing && read(pid).Some?
  {
    CollectedIsOrdered(listing, read, rows, seconds, ticks);
    CollectedAreTheRead(listing, read, rows, seconds, ticks);
  }

  lemma RecentOfWindow(window: seq<Event>, history: seq<Event>, n: nat)
    requires window == LastOf(history, MAX_EVENTS)
    ensures var most, start := if n < MAX_EVENTS then n else MAX_EVENTS, if n >= |window| then 0 else |window| - n;
            && |window| - start == (if |history| < most then |history| else most)
            && window[start..] == history[|history| - (|window| - start)..]
  {
    LastOfLast(history, if n < MAX_EVENTS then n else MAX_EVENTS, MAX_EVENTS);
  }

  lemma OneMore(before: seq<Event>, kind: Kind, rows: seq<Info>, i: nat, others: seq<Info>)
    requires i < |rows|
    ensures LastOf(LastOf(before + Unmatched(kind, rows[..i], others), MAX_EVENTS)
                   + (if Has(others, rows[i].pid) then [] else [Event(kind, rows[i].pid, rows[i].name)]), MAX_EVENTS)
         == LastOf(before + Unmatched(kind, rows[..i + 1], others), MAX_EVENTS)
  {
    var sofar := Unmatched(kind, rows[..i], others);
    var more := if Has(others, rows[i].pid) then [] else [Event(kind, rows[i].pid, rows[i].name)];
    LastOfConcat(before + sofar, more, MAX_EVENTS);
    UnmatchedStep(kind, rows, i, others);
    assert before + sofar + more == before + (sofar + more);
  }

  lemma TwoPasses(before: seq<Event>, rows: seq<Info>, next: seq<Info>)
    ensures LastOf(LastOf(before + Unmatched(Created, next, rows), MAX_EVENTS) + Unmatched(Terminated, rows, next), MAX_EVENTS)
         == LastOf(before + Changes(rows, next), MAX_EVENTS)
  {
    var created, terminated := Unmatched(Created, next, rows), Unmatched(Terminated, rows, next);
    LastOfConcat(before + created, terminated, MAX_EVENTS);
    assert before + created + terminated == before + (created + terminated);
  }

  lemma OneMoreSample(samples: seq<seq<Info>>, sweeps: seq<Sweep>, next: seq<Info>, w: Sweep, ticks: int)
    requires Swept(samples, sweeps, ticks) && Rising(w.listing)
    requires next == Collected(w.listing, w.read, Current(samples), w.gap, ticks)
    ensures Swept(samples + [next], sweeps + [w], ticks) && Current(samples + [next]) == next
    ensures AllEvents(samples + [next]) == AllEvents(samples) + Changes(Current(samples), next)
  {
    assert (samples + [next])[..|samples|] == samples;
    forall k | 0 <= k <= |samples|
      ensures SweptAt(samples + [next], sweeps + [w], ticks, k)
    {
      assert k < |samples| ==> SweptAt(samples, sweeps, ticks, k);
      assert Previous(samples + [next], k) == if k < |samples| then Previous(samples, k) else Current(samples);
    }
  }
}
