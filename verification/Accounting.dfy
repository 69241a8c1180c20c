/**
 CPU percentages and page-fault rates: how calculate_cpu_usage and calculate_fault_rates derive them
 from two samples, and what the figures shown over a whole run add up to: the kernel's own counts.
 */
module Accounting {
  import opened Sample
  import opened Sorting

  /** What is read from /proc for one process; the PID comes from the listing. */
  datatype Raw = Raw(ppid: int, name: string, utime: nat, stime: nat, minflt: nat, majflt: nat)

  function Total(p: Info): nat { p.utime + p.stime }

  function CpuPercent(before: nat, now: nat, seconds: real, ticks: int): real {
    if now < before then 0.0
    else if seconds > 0.0 && ticks > 0 then (100.0 * (now - before) as real) / (ticks as real * seconds)
    else 0.0
  }

  function Rate(before: nat, now: nat, seconds: real): real {
    if seconds > 0.0 && now >= before then (now - before) as real / seconds else 0.0
  }

  /** The finished row for a process that was read, given the previous sample. */
  ghost function Row(pid: int, raw: Raw, previous: Option<Info>, seconds: real, ticks: int): Info {
    match previous
    case None => Info(pid, raw.ppid, raw.name, raw.utime, raw.stime, raw.minflt, raw.majflt, 0.0, 0.0, 0.0)
    case Some(p) =>
      Info(pid, raw.ppid, raw.name, raw.utime, raw.stime, raw.minflt, raw.majflt,
           CpuPercent(Total(p), raw.utime + raw.stime, seconds, ticks),
           Rate(p.minflt, raw.minflt, seconds), Rate(p.majflt, raw.majflt, seconds))
  }

  /** The sample a sweep builds: the listed processes that could still be read, in listing order. */
  ghost function Collected(listing: seq<int>, read: int -> Option<Raw>, rows: seq<Info>, seconds: real, ticks: int): seq<Info> {
    if listing == [] then []
    else
      var pid := listing[|listing| - 1];
      var before := Collected(listing[..|listing| - 1], read, rows, seconds, ticks);
      match read(pid)
      case None => before
      case Some(raw) => before + [Row(pid, raw, Lookup(rows, pid), seconds, ticks)]
  }

  /** The rates of a row are those of the step from the previous sample. */
  ghost predicate RatesFrom(p: Info, rows: seq<Info>, seconds: real, ticks: int) {
    match Lookup(rows, p.pid)
    case None => p.cpuPercent == p.minfltRate == p.majfltRate == 0.0
    case Some(q) =>
      && p.cpuPercent == CpuPercent(Total(q), Total(p), seconds, ticks)
      && p.minfltRate == Rate(q.minflt, p.minflt, seconds)
      && p.majfltRate == Rate(q.majflt, p.majflt, seconds)
  }

  ghost predicate DerivedFrom(next: seq<Info>, rows: seq<Info>, seconds: real, ticks: int) {
    forall i :: 0 <= i < |next| ==> RatesFrom(next[i], rows, seconds, ticks)
  }

  ghost function PidBag(rows: seq<Info>): multiset<int> {
    if rows == [] then multiset{} else PidBag(rows[..|rows| - 1]) + multiset{rows[|rows| - 1].pid}
  }

  /** Every row is of a listed process, and holds what the kernel answered for it. */
  ghost predicate AnswersIn(next: seq<Info>, listing: seq<int>, read: int -> Option<Raw>) {
    forall i :: 0 <= i < |next| ==>
      && next[i].pid in listing
      && read(next[i].pid) == Some(Raw(next[i].ppid, next[i].name, next[i].utime, next[i].stime, next[i].minflt, next[i].majflt))
  }

  /**
   Any listing gives the listed processes that could be read, as often as they are listed, each with the kernel's
   answer and the rates of its step.
   */
  lemma CollectedAreTheRead(listing: seq<int>, read: int -> Option<Raw>, rows: seq<Info>, seconds: real, ticks: int)
    ensures var next := Collected(listing, read, rows, seconds, ticks);
            && DerivedFrom(next, rows, seconds, ticks)
            && (forall i :: 0 <= i < |next| ==>
                  && next[i].pid in listing
                  && read(next[i].pid) == Some(Raw(next[i].ppid, next[i].name, next[i].utime, next[i].stime, next[i].minflt, next[i].majflt)))
            && (forall pid :: Has(next, pid) <==> pid in listing && read(pid).Some?)
            && (forall pid :: PidBag(next)[pid] == if read(pid).Some? then multiset(listing)[pid] else 0)
  {
    CollectedIsDerived(listing, read, rows, seconds, ticks);
    CollectedAreListed(listing, read, rows, seconds, ticks);
    CollectedAnswers(listing, read, rows, seconds, ticks);
    forall pid
      ensures Has(Collected(listing, read, rows, seconds, ticks), pid) <==> pid in listing && read(pid).Some?
    {
      BagIsHas(Collected(listing, read, rows, seconds, ticks), pid);
    }
  }

  lemma {:induction false} CollectedIsDerived(listing: seq<int>, read: int -> Option<Raw>, rows: seq<Info>, seconds: real, ticks: int)
    ensures DerivedFrom(Collected(listing, read, rows, seconds, ticks), rows, seconds, ticks)
  {
    if listing != [] {
      var pid := listing[|listing| - 1];
      CollectedIsDerived(listing[..|listing| - 1], read, rows, seconds, ticks);
      if read(pid).Some? {
        assert RatesFrom(Row(pid, read(pid).value, Lookup(rows, pid), seconds, ticks), rows, seconds, ticks);
      }
    }
  }

  lemma {:induction false} CollectedAnswers(listing: seq<int>, read: int -> Option<Raw>, rows: seq<Info>, seconds: real, ticks: int)
    ensures AnswersIn(Collected(listing, read, rows, seconds, ticks), listing, read)
  {
    if listing != [] {
      CollectedAnswers(listing[..|listing| - 1], read, rows, seconds, ticks);
    }
  }

  lemma {:induction false} CollectedAreListed(listing: seq<int>, read: int -> Option<Raw>, rows: seq<Info>, seconds: real, ticks: int)
    ensures forall pid ::
      PidBag(Collected(listing, read, rows, seconds, ticks))[pid] == if read(pid).Some? then multiset(listing)[pid] else 0
  {
    if listing != [] {
      var before, pid := listing[..|listing| - 1], listing[|listing| - 1];
      CollectedAreListed(before, read, rows, seconds, ticks);
      assert listing == before + [pid];
      if read(pid).Some? {
        BagOneMore(Collected(before, read, rows, seconds, ticks), Row(pid, read(pid).value, Lookup(rows, pid), seconds, ticks));
      }
    }
  }

  lemma BagOneMore(sofar: seq<Info>, p: Info)
    ensures PidBag(sofar + [p]) == PidBag(sofar) + multiset{p.pid}
  {
    assert (sofar + [p])[..|sofar|] == sofar;
  }

  lemma {:induction false} BagIsHas(rows: seq<Info>, pid: int)
    ensures pid in PidBag(rows) <==> Has(rows, pid)
  {
    if rows != [] {
      var before, last := rows[..|rows| - 1], rows[|rows| - 1];
      BagIsHas(before, pid);
      HasAppend(before, last.pid);
      assert rows == before + [last];
    }
  }

  /** A listing in order gives a sample in order, and one without duplicates if the listing has none. */
  lemma {:induction false} CollectedIsOrdered(listing: seq<int>, read: int -> Option<Raw>, rows: seq<Info>, seconds: real, ticks: int)
    requires Rising(listing)
    ensures Ordered(Collected(listing, read, rows, seconds, ticks))
    ensures Ascending(listing) ==> Sorted(Collected(listing, read, rows, seconds, ticks))
  {
    if listing != [] {
      var before := listing[..|listing| - 1];
      CollectedIsOrdered(before, read, rows, seconds, ticks);
      CollectedAnswers(before, read, rows, seconds, ticks);
      LastIsHighest(listing, Collected(before, read, rows, seconds, ticks), read);
    }
  }

  lemma LastIsHighest(listing: seq<int>, sofar: seq<Info>, read: int -> Option<Raw>)
    requires listing != [] && Rising(listing) && AnswersIn(sofar, listing[..|listing| - 1], read)
    ensures forall i :: 0 <= i < |sofar| ==> sofar[i].pid <= listing[|listing| - 1]
    ensures Ascending(listing) ==> forall i :: 0 <= i < |sofar| ==> sofar[i].pid < listing[|listing| - 1]
  {
  }

  lemma HasAppend(rows: seq<Info>, pid: int)
    ensures forall p: Info, q :: p.pid == pid ==> (Has(rows + [p], q) <==> Has(rows, q) || q == pid)
  {
    forall p: Info, q | p.pid == pid
      ensures Has(rows + [p], q) <==> Has(rows, q) || q == pid
    {
      assert (rows + [p])[|rows|] == p;
      if Has(rows, q) {
        var i :| 0 <= i < |rows| && rows[i].pid == q;
        assert (rows + [p])[i].pid == q;
      }
    }
  }

  // ---- Counters and the rates derived from them ----

  function Sum(xs: seq<real>): real {
    if xs == [] then 0.0 else Sum(xs[..|xs| - 1]) + xs[|xs| - 1]
  }

  /** How far a counter climbed, falls not counted. */
  function Climb(counters: seq<int>): int {
    if |counters| <= 1 then 0
    else
      var n := |counters|;
      Climb(counters[..n - 1]) + if counters[n - 1] < counters[n - 2] then 0 else counters[n - 1] - counters[n - 2]
  }

  ghost predicate NeverFalls(counters: seq<int>) {
    forall i, j :: 0 <= i <= j < |counters| ==> counters[i] <= counters[j]
  }

  lemma NeverFallsExtend(counters: seq<int>)
    requires |counters| >= 2
    ensures var n := |counters|;
            NeverFalls(counters) <==> NeverFalls(counters[..n - 1]) && counters[n - 2] <= counters[n - 1]
  {
    var n := |counters|;
    if NeverFalls(counters[..n - 1]) && counters[n - 2] <= counters[n - 1] {
      forall i, j | 0 <= i <= j < n
        ensures counters[i] <= counters[j]
      {
        if i < n - 1 {
          assert counters[..n - 1][i] <= counters[..n - 1][if j < n - 1 then j else n - 2];
        }
      }
    }
  }

  /** The climb is the whole way exactly if the counter never fell; otherwise it exceeds it. */
  lemma {:induction false} ClimbIsTheWay(counters: seq<int>)
    requires counters != []
    ensures var way := counters[|counters| - 1] - counters[0];
            Climb(counters) >= way && (Climb(counters) == way <==> NeverFalls(counters))
  {
    if |counters| >= 2 {
      ClimbIsTheWay(counters[..|counters| - 1]);
      NeverFallsExtend(counters);
    }
  }

  /** What is shown for one step of a counter: the step times a unit, or nothing where it fell. */
  function Step(before: int, now: int, unit: int): int {
    if now < before then 0 else unit * (now - before)
  }

  ghost predicate Shows(shown: seq<real>, counters: seq<int>, unit: int) {
    && |counters| == |shown| + 1
    && forall k :: 0 <= k < |shown| ==> shown[k] == Step(counters[k], counters[k + 1], unit) as real
  }

  lemma {:induction false} SumIsTheClimb(shown: seq<real>, counters: seq<int>, unit: int)
    requires Shows(shown, counters, unit)
    ensures Sum(shown) == (unit * Climb(counters)) as real
  {
    if shown != [] {
      var n := |shown|;
      SumIsTheClimb(shown[..n - 1], counters[..n], unit);
      StepScales(Climb(counters[..n]), counters[n - 1], counters[n], unit);
    }
  }

  lemma StepScales(climb: int, before: int, now: int, unit: int)
    ensures unit * (climb + if now < before then 0 else now - before) == unit * climb + Step(before, now, unit)
  {
  }

  /** Conservation: the figures shown add up to the way of the counter exactly if it never fell. */
  lemma Conserved(shown: seq<real>, counters: seq<int>, unit: int)
    requires Shows(shown, counters, unit) && unit > 0
    ensures var way := counters[|shown|] - counters[0];
            && Sum(shown) >= (unit * way) as real
            && (Sum(shown) == (unit * way) as real <==> NeverFalls(counters))
  {
    SumIsTheClimb(shown, counters, unit);
    ClimbIsTheWay(counters);
    var way := counters[|shown|] - counters[0];
    TimesUnit(unit, Climb(counters), way);
  }

  lemma TimesUnit(unit: int, a: int, b: int)
    requires unit > 0
    ensures a > b ==> unit * a > unit * b
  {
  }

  lemma PercentUndone(before: nat, now: nat, seconds: real, ticks: int)
    requires seconds > 0.0 && ticks > 0
    ensures CpuPercent(before, now, seconds, ticks) * seconds * ticks as real
         == Step(before, now, 100) as real
  {
    if now >= before {
      var d := ticks as real * seconds;
      var x := 100.0 * (now - before) as real;
      assert x / d * d == x;
    }
  }

  lemma RateUndone(before: nat, now: nat, seconds: real)
    requires seconds > 0.0
    ensures Rate(before, now, seconds) * seconds == Step(before, now, 1) as real
  {
  }

  // ---- Whole runs ----

  /** One sweep: the listing, the kernel's answers, and the measured gap before it in seconds. */
  datatype Sweep = Sweep(listing: seq<int>, read: int -> Option<Raw>, gap: real)

  ghost function Previous(samples: seq<seq<Info>>, k: nat): seq<Info>
    requires k < |samples|
  {
    if k == 0 then [] else samples[k - 1]
  }

  ghost predicate SweptAt(samples: seq<seq<Info>>, sweeps: seq<Sweep>, ticks: int, k: nat)
    requires k < |samples| == |sweeps|
  {
    var w := sweeps[k];
    Rising(w.listing) && samples[k] == Collected(w.listing, w.read, Previous(samples, k), w.gap, ticks)
  }

  /** Consecutive samples, and the sweeps they were made in. */
  ghost predicate Swept(samples: seq<seq<Info>>, sweeps: seq<Sweep>, ticks: int) {
    |samples| == |sweeps| && forall k :: 0 <= k < |samples| ==> SweptAt(samples, sweeps, ticks, k)
  }

  ghost predicate Answered(w: Sweep, pid: int) { pid in w.listing && w.read(pid).Some? }

  function Answer(w: Sweep, pid: int): Raw
    requires w.read(pid).Some?
  {
    w.read(pid).value
  }

  /** The process is in every sample from number i to number j, with time between them. */
  ghost predicate Stays(sweeps: seq<Sweep>, pid: int, i: nat, j: nat) {
    && i <= j < |sweeps|
    && (forall k :: i <= k <= j ==> Answered(sweeps[k], pid))
    && (forall k :: i < k <= j ==> sweeps[k].gap > 0.0)
  }

  /** The row shown for a process. */
  ghost function RowOf(rows: seq<Info>, pid: int): Info
    requires Has(rows, pid)
  {
    rows[Position(rows, pid)]
  }

  /** Every sample is in order, and what it shows of a process is what the kernel answered. */
  lemma SampleIsTheAnswers(samples: seq<seq<Info>>, sweeps: seq<Sweep>, ticks: int, k: nat, pid: int)
    requires Swept(samples, sweeps, ticks) && k < |samples|
    ensures Ordered(samples[k]) && (Has(samples[k], pid) <==> Answered(sweeps[k], pid))
    ensures Has(samples[k], pid) ==>
      var p := RowOf(samples[k], pid);
      p.pid == pid && Answer(sweeps[k], pid) == Raw(p.ppid, p.name, p.utime, p.stime, p.minflt, p.majflt)
  {
    assert SweptAt(samples, sweeps, ticks, k);
    var w := sweeps[k];
    CollectedIsOrdered(w.listing, w.read, Previous(samples, k), w.gap, ticks);
    CollectedAreTheRead(w.listing, w.read, Previous(samples, k), w.gap, ticks);
  }

  /** The figures of p are those of the step from q. */
  ghost predicate Linked(q: Info, p: Info, seconds: real, ticks: int) {
    && p.cpuPercent == CpuPercent(Total(q), Total(p), seconds, ticks)
    && p.minfltRate == Rate(q.minflt, p.minflt, seconds)
    && p.majfltRate == Rate(q.majflt, p.majflt, seconds)
  }

  lemma RowsAreLinked(next: seq<Info>, rows: seq<Info>, seconds: real, ticks: int, pid: int)
    requires DerivedFrom(next, rows, seconds, ticks) && Has(next, pid) && Has(rows, pid) && Ordered(rows) && Ordered(next)
    ensures Linked(RowOf(rows, pid), RowOf(next, pid), seconds, ticks)
  {
    assert RatesFrom(next[Position(next, pid)], rows, seconds, ticks);
  }

  lemma SamplesAreLinked(samples: seq<seq<Info>>, sweeps: seq<Sweep>, ticks: int, pid: int, k: nat)
    requires Swept(samples, sweeps, ticks) && 0 < k < |samples|
    requires Answered(sweeps[k - 1], pid) && Answered(sweeps[k], pid)
    ensures Has(samples[k - 1], pid) && Has(samples[k], pid)
    ensures Linked(RowOf(samples[k - 1], pid), RowOf(samples[k], pid), sweeps[k].gap, ticks)
  {
    SampleIsTheAnswers(samples, sweeps, ticks, k - 1, pid);
    SampleIsTheAnswers(samples, sweeps, ticks, k, pid);
    assert SweptAt(samples, sweeps, ticks, k);
    CollectedIsDerived(sweeps[k].listing, sweeps[k].read, samples[k - 1], sweeps[k].gap, ticks);
    RowsAreLinked(samples[k], samples[k - 1], sweeps[k].gap, ticks, pid);
  }

  /** The figures of p, each times the interval, are what the counters climbed between two answers. */
  ghost predicate Earned(p: Info, seconds: real, ticks: int, before: Raw, now: Raw) {
    && (ticks > 0 ==> p.cpuPercent * seconds * ticks as real == Step(before.utime + before.stime, now.utime + now.stime, 100) as real)
    && p.minfltRate * seconds == Step(before.minflt, now.minflt, 1) as real
    && p.majfltRate * seconds == Step(before.majflt, now.majflt, 1) as real
  }

  lemma FiguresUndone(q: Info, p: Info, seconds: real, ticks: int, before: Raw, now: Raw)
    requires Linked(q, p, seconds, ticks) && seconds > 0.0
    requires before == Raw(q.ppid, q.name, q.utime, q.stime, q.minflt, q.majflt)
    requires now == Raw(p.ppid, p.name, p.utime, p.stime, p.minflt, p.majflt)
    ensures Earned(p, seconds, ticks, before, now)
  {
    if ticks > 0 {
      PercentUndone(Total(q), Total(p), seconds, ticks);
    }
    RateUndone(q.minflt, p.minflt, seconds);
    RateUndone(q.majflt, p.majflt, seconds);
  }

  /** The figures shown for a process, against the kernel's answers to this sweep and the one before. */
  lemma FiguresOfStep(samples: seq<seq<Info>>, sweeps: seq<Sweep>, ticks: int, pid: int, k: nat)
    requires Swept(samples, sweeps, ticks) && 0 < k < |samples| && sweeps[k].gap > 0.0
    requires Answered(sweeps[k - 1], pid) && Answered(sweeps[k], pid)
    ensures Has(samples[k], pid)
    ensures Earned(RowOf(samples[k], pid), sweeps[k].gap, ticks, Answer(sweeps[k - 1], pid), Answer(sweeps[k], pid))
  {
    SamplesAreLinked(samples, sweeps, ticks, pid, k);
    SampleIsTheAnswers(samples, sweeps, ticks, k - 1, pid);
    SampleIsTheAnswers(samples, sweeps, ticks, k, pid);
    FiguresUndone(RowOf(samples[k - 1], pid), RowOf(samples[k], pid), sweeps[k].gap, ticks, Answer(sweeps[k - 1], pid), Answer(sweeps[k], pid));
  }

  /** A counter of a process in the kernel's answers to the sweeps from number i to number j. */
  function Counters(count: Raw -> int, sweeps: seq<Sweep>, pid: int, i: nat, j: nat): (r: seq<int>)
    requires i <= j < |sweeps| && forall k :: i <= k <= j ==> sweeps[k].read(pid).Some?
    ensures |r| == j - i + 1 && forall k :: 0 <= k < |r| ==> r[k] == count(sweeps[i + k].read(pid).value)
  {
    seq(j - i + 1, k requires 0 <= k <= j - i => count(sweeps[i + k].read(pid).value))
  }

  /** What a figure shown in the sample after number n comes to over its interval. */
  ghost function Shown(figure: Info -> real, samples: seq<seq<Info>>, sweeps: seq<Sweep>, pid: int, n: nat): real
    requires n + 1 < |samples| == |sweeps|
  {
    if Has(samples[n + 1], pid) then figure(RowOf(samples[n + 1], pid)) * sweeps[n + 1].gap else 0.0
  }

  /**
   CPU time is conserved: whatever the intervals were, the percentages shown for a process, each times
   its interval and the clock rate, add up to 100 times the CPU time that the kernel counted, exactly if the
   counter never fell (a fall means the PID was recycled); otherwise they exceed it.
  */
  lemma CpuTimeIsConserved(samples: seq<seq<Info>>, sweeps: seq<Sweep>, ticks: int, pid: int, i: nat, j: nat, shown: seq<real>)
    requires Swept(samples, sweeps, ticks) && Stays(sweeps, pid, i, j) && ticks > 0 && |shown| == j - i
    requires forall k :: 0 <= k < |shown| ==>
      shown[k] == Shown((p: Info) => p.cpuPercent, samples, sweeps, pid, i + k) * ticks as real
    ensures var first, last := Answer(sweeps[i], pid), Answer(sweeps[j], pid);
            var way := last.utime + last.stime - (first.utime + first.stime);
            && Sum(shown) >= (100 * way) as real
            && (Sum(shown) == (100 * way) as real <==>
                NeverFalls(Counters((r: Raw) => r.utime + r.stime, sweeps, pid, i, j)))
  {
    PercentsAreShown(samples, sweeps, ticks, pid, i, j, shown);
    Conserved(shown, Counters((r: Raw) => r.utime + r.stime, sweeps, pid, i, j), 100);
  }

  lemma PercentsAreShown(samples: seq<seq<Info>>, sweeps: seq<Sweep>, ticks: int, pid: int, i: nat, j: nat, shown: seq<real>)
    requires Swept(samples, sweeps, ticks) && Stays(sweeps, pid, i, j) && ticks > 0 && |shown| == j - i
    requires forall k :: 0 <= k < |shown| ==>
      shown[k] == Shown((p: Info) => p.cpuPercent, samples, sweeps, pid, i + k) * ticks as real
    ensures Shows(shown, Counters((r: Raw) => r.utime + r.stime, sweeps, pid, i, j), 100)
  {
    var counters := Counters((r: Raw) => r.utime + r.stime, sweeps, pid, i, j);
    forall k | 0 <= k < |shown|
      ensures shown[k] == Step(counters[k], counters[k + 1], 100) as real
    {
      PercentOfStep(samples, sweeps, ticks, pid, i, j, k);
    }
  }

  lemma ShownIs(figure: Info -> real, samples: seq<seq<Info>>, sweeps: seq<Sweep>, pid: int, n: nat, p: Info, value: real)
    requires n + 1 < |samples| == |sweeps| && Has(samples[n + 1], pid) && RowOf(samples[n + 1], pid) == p
    requires figure(p) * sweeps[n + 1].gap == value
    ensures Shown(figure, samples, sweeps, pid, n) == value
  {
  }

  lemma PercentOfStep(samples: seq<seq<Info>>, sweeps: seq<Sweep>, ticks: int, pid: int, i: nat, j: nat, k: nat)
    requires Swept(samples, sweeps, ticks) && Stays(sweeps, pid, i, j) && i + k < j && ticks > 0
    ensures var used := Counters((r: Raw) => r.utime + r.stime, sweeps, pid, i, j);
            Shown((p: Info) => p.cpuPercent, samples, sweeps, pid, i + k) * ticks as real == Step(used[k], used[k + 1], 100) as real
  {
    var n := i + k;
    FiguresOfStep(samples, sweeps, ticks, pid, n + 1);
    var p := RowOf(samples[n + 1], pid);
    ShownIs((p: Info) => p.cpuPercent, samples, sweeps, pid, n, p, p.cpuPercent * sweeps[n + 1].gap);
  }

  lemma FaultsOfStep(samples: seq<seq<Info>>, sweeps: seq<Sweep>, ticks: int, pid: int, i: nat, j: nat, k: nat)
    requires Swept(samples, sweeps, ticks) && Stays(sweeps, pid, i, j) && i + k < j
    ensures var minor := Counters((r: Raw) => r.minflt, sweeps, pid, i, j);
            Shown((p: Info) => p.minfltRate, samples, sweeps, pid, i + k) == Step(minor[k], minor[k + 1], 1) as real
    ensures var major := Counters((r: Raw) => r.majflt, sweeps, pid, i, j);
            Shown((p: Info) => p.majfltRate, samples, sweeps, pid, i + k) == Step(major[k], major[k + 1], 1) as real
  {
    var n := i + k;
    FiguresOfStep(samples, sweeps, ticks, pid, n + 1);
    var p, gap := RowOf(samples[n + 1], pid), sweeps[n + 1].gap;
    ShownIs((p: Info) => p.minfltRate, samples, sweeps, pid, n, p, p.minfltRate * gap);
    ShownIs((p: Info) => p.majfltRate, samples, sweeps, pid, n, p, p.majfltRate * gap);
  }

  /** The minor-fault rates, each times its interval, add up to the faults the kernel counted in the same sense. */
  lemma MinorFaultsAreConserved(samples: seq<seq<Info>>, sweeps: seq<Sweep>, ticks: int, pid: int, i: nat, j: nat, shown: seq<real>)
    requires Swept(samples, sweeps, ticks) && Stays(sweeps, pid, i, j) && |shown| == j - i
    requires forall k :: 0 <= k < |shown| ==> shown[k] == Shown((p: Info) => p.minfltRate, samples, sweeps, pid, i + k)
    ensures var way := Answer(sweeps[j], pid).minflt - Answer(sweeps[i], pid).minflt;
            && Sum(shown) >= (1 * way) as real
            && (Sum(shown) == (1 * way) as real <==> NeverFalls(Counters((r: Raw) => r.minflt, sweeps, pid, i, j)))
  {
    var counters := Counters((r: Raw) => r.minflt, sweeps, pid, i, j);
    forall k | 0 <= k < |shown|
      ensures shown[k] == Step(counters[k], counters[k + 1], 1) as real
    {
      FaultsOfStep(samples, sweeps, ticks, pid, i, j, k);
    }
    Conserved(shown, counters, 1);
  }

  /** And so do the major-fault rates. */
  lemma MajorFaultsAreConserved(samples: seq<seq<Info>>, sweeps: seq<Sweep>, ticks: int, pid: int, i: nat, j: nat, shown: seq<real>)
    requires Swept(samples, sweeps, ticks) && Stays(sweeps, pid, i, j) && |shown| == j - i
    requires forall k :: 0 <= k < |shown| ==> shown[k] == Shown((p: Info) => p.majfltRate, samples, sweeps, pid, i + k)
    ensures var way := Answer(sweeps[j], pid).majflt - Answer(sweeps[i], pid).majflt;
            && Sum(shown) >= (1 * way) as real
            && (Sum(shown) == (1 * way) as real <==> NeverFalls(Counters((r: Raw) => r.majflt, sweeps, pid, i, j)))
  {
    var counters := Counters((r: Raw) => r.majflt, sweeps, pid, i, j);
    forall k | 0 <= k < |shown|
      ensures shown[k] == Step(counters[k], counters[k + 1], 1) as real
    {
      FaultsOfStep(samples, sweeps, ticks, pid, i, j, k);
    }
    Conserved(shown, counters, 1);
  }

  lemma FiguresNonNegative(before: nat, now: nat, seconds: real, ticks: int)
    ensures CpuPercent(before, now, seconds, ticks) >= 0.0 && Rate(before, now, seconds) >= 0.0
  {
    if seconds > 0.0 && ticks > 0 && now >= before {
      assert ticks as real * seconds > 0.0;
    }
  }

  /** No figure is ever negative, recycled PIDs included. */
  lemma FiguresAreNeverNegative(next: seq<Info>, rows: seq<Info>, seconds: real, ticks: int, i: nat)
    requires DerivedFrom(next, rows, seconds, ticks) && i < |next|
    ensures var p := next[i]; p.cpuPercent >= 0.0 && p.minfltRate >= 0.0 && p.majfltRate >= 0.0
  {
    var p := next[i];
    assert RatesFrom(p, rows, seconds, ticks);
    if Lookup(rows, p.pid).Some? {
      var q := Lookup(rows, p.pid).value;
      FiguresNonNegative(Total(q), Total(p), seconds, ticks);
      FiguresNonNegative(q.minflt, p.minflt, seconds, ticks);
      FiguresNonNegative(q.majflt, p.majflt, seconds, ticks);
    }
  }

  /** Zeros are shown for a process that was not there before, and where no time passed; and no CPU figure without a clock rate. */
  lemma ZeroWithoutPast(samples: seq<seq<Info>>, sweeps: seq<Sweep>, ticks: int, pid: int, k: nat)
    requires Swept(samples, sweeps, ticks) && k < |samples| && Has(samples[k], pid)
    ensures var p := RowOf(samples[k], pid);
            && (k == 0 || !Answered(sweeps[k - 1], pid) || sweeps[k].gap <= 0.0 ==> p.cpuPercent == p.minfltRate == p.majfltRate == 0.0)
            && (ticks <= 0 ==> p.cpuPercent == 0.0)
  {
    assert SweptAt(samples, sweeps, ticks, k);
    CollectedIsDerived(sweeps[k].listing, sweeps[k].read, Previous(samples, k), sweeps[k].gap, ticks);
    SampleIsTheAnswers(samples, sweeps, ticks, k, pid);
    assert RatesFrom(RowOf(samples[k], pid), Previous(samples, k), sweeps[k].gap, ticks);
    if k > 0 {
      SampleIsTheAnswers(samples, sweeps, ticks, k - 1, pid);
    }
  }

  lemma NeverNegative(samples: seq<seq<Info>>, sweeps: seq<Sweep>, ticks: int, k: nat)
    requires Swept(samples, sweeps, ticks) && k < |samples|
    ensures forall i :: 0 <= i < |samples[k]| ==>
      var p := samples[k][i]; p.cpuPercent >= 0.0 && p.minfltRate >= 0.0 && p.majfltRate >= 0.0
  {
    assert SweptAt(samples, sweeps, ticks, k);
    CollectedIsDerived(sweeps[k].listing, sweeps[k].read, Previous(samples, k), sweeps[k].gap, ticks);
    forall i | 0 <= i < |samples[k]|
      ensures var p := samples[k][i]; p.cpuPercent >= 0.0 && p.minfltRate >= 0.0 && p.majfltRate >= 0.0
    {
      FiguresAreNeverNegative(samples[k], Previous(samples, k), sweeps[k].gap, ticks, i);
    }
  }
}
