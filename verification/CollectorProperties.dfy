/** The promises of the two-thread protocol, over every run. */
module CollectorProperties {
  import opened Clock
  import opened Collector
  import opened CollectorInvariant

  // ---- Wakeups ----

  /**
   When the collector sleeps and nobody is about to signal it, there is no stop and no refresh to be
   served, and it will wake at the last sweep plus the current interval.
   */
  lemma NothingIsSleptThrough(tr: seq<State>, acts: seq<Action>, n: nat)
    requires Run(tr, acts) && n < |tr| && tr[n].coll.pc == CAsleep && !Signalling(tr[n].main.pc)
    ensures !tr[n].sh.stopping && !tr[n].sh.refresh
    ensures Nanos(tr[n].coll.deadline) == Nanos(tr[n].coll.last) + tr[n].sh.interval * NS_PER_MS
    ensures tr[n].sh.interval == tr[n].main.interval || tr[n].main.pc.MIntLock? || tr[n].main.pc.MIntSet?
  {
    RunInv(tr, acts, n);
    AddMsIsExact(tr[n].coll.last, tr[n].sh.interval);
  }

  /** Whoever signals holds the lock from the change to the signal, so with the lock free nothing is on its way. */
  lemma SignalsAreSentUnderTheLock(tr: seq<State>, acts: seq<Action>, n: nat)
    requires Run(tr, acts) && n < |tr| && tr[n].lock != Main
    ensures !Signalling(tr[n].main.pc)
  {
    RunInv(tr, acts, n);
  }

  // ---- Samples ----

  /** Everything the main thread ever reads of what the two threads share. */
  datatype Shown = Shown(sh: Shared, front: nat, count: nat, rows: seq<Row>, events: nat, sys: nat, scan: int)

  ghost function SeenByMain(s: State): Shown
    requires s.mon.front < |s.mon.bufs|
  {
    Shown(s.sh, s.mon.front, s.mon.count, s.mon.bufs[s.mon.front], s.mon.events, s.mon.sys, s.mon.scan)
  }

  /** The last step of the sweep, which stores how long it took, without the lock. */
  predicate StoresScan(pc: CPc) { pc == CSweep([]) }

  lemma UnlockedStep(s: State, l: seq<Row>)
    requires Mutex(s) && Buffers(s) && InBounds(s) && CReady(s) && s.lock != Coll
    ensures var s' := DoColl(s, l);
            && s'.mon.front < |s'.mon.bufs|
            && SeenByMain(s') == if StoresScan(s.coll.pc) then SeenByMain(s).(scan := s'.mon.scan) else SeenByMain(s)
  {
  }

  lemma LinkIsStep(tr: seq<State>, acts: seq<Action>, n: nat) returns (s: State, a: Action, s': State)
    requires Run(tr, acts) && n < |acts|
    ensures s == tr[n] && a == acts[n] && s' == tr[n + 1] && Inv(s) && Enabled(s, a) && s' == Do(s, a)
  {
    RunInv(tr, acts, n);
    assert Linked(tr, acts, n);
    s, a, s' := tr[n], acts[n], tr[n + 1];
  }

  lemma StoredScan(s: State, l: seq<Row>)
    requires InBounds(s) && StoresScan(s.coll.pc)
    ensures DoColl(s, l).mon.scan == s.now - Nanos(s.coll.last)
  {
  }

  /**
   A step that the collector takes without the lock changes something main reads if and only if it is the
   one that stores the time of the scan, and the time there is another; and it changes that alone.
   */
  lemma SweepIsPrivate(tr: seq<State>, acts: seq<Action>, n: nat)
    requires Run(tr, acts) && n < |acts| && acts[n].CollStep? && tr[n].lock != Coll
    ensures var s, s' := tr[n], tr[n + 1];
            && s.mon.front < |s.mon.bufs| && s'.mon.front < |s'.mon.bufs| && s'.main == s.main
            && (SeenByMain(s') != SeenByMain(s) <==> StoresScan(s.coll.pc) && s.mon.scan != s.now - Nanos(s.coll.last))
            && SeenByMain(s').(scan := s.mon.scan) == SeenByMain(s)
  {
    var s, a, s' := LinkIsStep(tr, acts, n);
    CollKeepsMain(s, a.listing);
    UnlockedStep(s, a.listing);
    if StoresScan(s.coll.pc) {
      StoredScan(s, a.listing);
    }
  }

  /**
   Whatever the interleaving, the rows, the count, the events and the system figures of a frame are
   all from one sample, and that sample is what the kernel answered to one whole sweep.
   */
  lemma NoTornFrame(tr: seq<State>, acts: seq<Action>, n: nat)
    requires Run(tr, acts) && n < |tr| && !Drawing(tr[n].main.pc)
    ensures var v := tr[n].main.view;
            v.gen == -1
            || (&& 0 <= v.gen <= tr[n].sh.generation && v.gen < |tr[n].hist.samples|
                && v.rows == tr[n].hist.samples[v.gen] && v.count == |v.rows|
                && v.events == v.gen && v.sys == v.gen)
  {
    RunInv(tr, acts, n);
  }

  /** When main gives the lock back after the drawing code, the frame shows the current generation. */
  lemma FrameIsCurrent(tr: seq<State>, acts: seq<Action>, n: nat)
    requires Run(tr, acts) && n < |tr| && tr[n].main.pc == MDrawUnlock && !tr[n].main.needsRedraw
    ensures tr[n].main.view.gen == tr[n].sh.generation < |tr[n].hist.samples|
    ensures tr[n].main.view.rows == tr[n].hist.samples[tr[n].sh.generation]
  {
    RunInv(tr, acts, n);
  }

  /**
   When main gives the lock back after a lookup, it has a row of the current sample with the PID it looked
   for, or nothing and the current sample has no such row.
   */
  lemma PromptIsFromOneSample(tr: seq<State>, acts: seq<Action>, n: nat)
    requires Run(tr, acts) && n < |tr| && tr[n].main.pc.MFindUnlock?
    ensures tr[n].sh.generation < |tr[n].hist.samples|
    ensures Answer(tr[n].hist.samples[tr[n].sh.generation], tr[n].main.pc.pid, tr[n].main.pc.name)
  {
    RunInv(tr, acts, n);
  }

  lemma UnlockAsks(s: State, key: Key)
    requires InBounds(s) && s.main.pc.MFindUnlock?
    ensures DoMain(s, key).main.pc == if s.main.pc.name == [] then MDrawLock else MConfirm(s.main.pc.pid, s.main.pc.name)
  {
  }

  /** The user is asked exactly if the current sample has the PID, and asked about that PID. */
  lemma PromptIffPresent(tr: seq<State>, acts: seq<Action>, n: nat)
    requires Run(tr, acts) && n < |acts| && acts[n].MainStep? && tr[n].main.pc.MFindUnlock?
    ensures tr[n].sh.generation < |tr[n].hist.samples|
    ensures tr[n + 1].main.pc.MConfirm? <==>
      exists i :: 0 <= i < |tr[n].hist.samples[tr[n].sh.generation]|
                  && tr[n].hist.samples[tr[n].sh.generation][i].pid == tr[n].main.pc.pid
    ensures tr[n + 1].main.pc.MConfirm? ==> tr[n + 1].main.pc.pid == tr[n].main.pc.pid
  {
    var s, a, s' := LinkIsStep(tr, acts, n);
    UnlockAsks(s, a.key);
    AnswerTells(s.hist.samples[s.sh.generation], s.main.pc.pid, s.main.pc.name);
  }

  lemma AnswerTells(rows: seq<Row>, pid: int, name: seq<Row>)
    requires Answer(rows, pid, name)
    ensures name != [] <==> exists i :: 0 <= i < |rows| && rows[i].pid == pid
  {
  }

  /** And for as long as the question stands, the name in it is that of the PID in it. */
  lemma PromptNamesThePid(tr: seq<State>, acts: seq<Action>, n: nat)
    requires Run(tr, acts) && n < |tr| && tr[n].main.pc.MConfirm?
    ensures |tr[n].main.pc.name| == 1 && tr[n].main.pc.name[0].pid == tr[n].main.pc.pid
  {
    RunInv(tr, acts, n);
  }

  // ---- Counting the collector's steps and the rows it sweeps ----

  function Rows(samples: seq<seq<Row>>): nat {
    if samples == [] then 0 else Rows(samples[..|samples| - 1]) + |samples[|samples| - 1]|
  }

  function CollSteps(acts: seq<Action>): nat {
    if acts == [] then 0 else CollSteps(acts[..|acts| - 1]) + if acts[|acts| - 1].CollStep? then 1 else 0
  }

  /** The rows of the sweep that begins with a step, if one does. */
  function Begun(before: seq<seq<Row>>, after: seq<seq<Row>>): seq<Row> {
    if |after| == |before| + 1 then after[|before|] else []
  }

  lemma RowsOfOneMore(before: seq<seq<Row>>, after: seq<seq<Row>>, n: nat)
    requires n <= |before| && before <= after && |after| <= |before| + 1
    ensures Rows(after[n..]) == Rows(before[n..]) + |Begun(before, after)|
  {
    if |after| == |before| + 1 {
      assert after[n..][..|before| - n] == before[n..];
    } else {
      assert after == before;
    }
  }

  lemma OneMoreAct(acts: seq<Action>, i: nat, j: nat)
    requires i < j <= |acts|
    ensures CollSteps(acts[i..j]) == CollSteps(acts[i..j - 1]) + if acts[j - 1].CollStep? then 1 else 0
  {
    assert acts[i..j][..j - 1 - i] == acts[i..j - 1];
  }

  // ---- Refresh requests ----

  ghost predicate Requested(tr: seq<State>, acts: seq<Action>, i: nat) {
    i < |acts| && i < |tr| && acts[i].MainStep? && tr[i].main.pc.MReqSet?
  }

  ghost predicate FallsAsleep(tr: seq<State>, acts: seq<Action>, j: nat) {
    && j < |acts| && j + 1 < |tr| && acts[j].CollStep?
    && !tr[j].coll.pc.CAsleep? && tr[j + 1].coll.pc.CAsleep?
  }

  lemma StepKeepsMark(s: State, a: Action)
    requires Inv(s) && Enabled(s, a)
    ensures s.hist.mark <= Do(s, a).hist.mark
  {
    if a.CollStep? {
      CollKeepsMain(s, a.listing);
    } else {
      NotTheCollectors(s, a);
    }
  }

  lemma MarkLink(tr: seq<State>, acts: seq<Action>, k: nat)
    requires Run(tr, acts) && k < |acts|
    ensures tr[k].hist.mark <= tr[k + 1].hist.mark
  {
    var s, a, s' := LinkIsStep(tr, acts, k);
    StepKeepsMark(s, a);
  }

  lemma {:induction false} MarkGrows(tr: seq<State>, acts: seq<Action>, i: nat, j: nat)
    requires Run(tr, acts) && i <= j < |tr|
    ensures tr[i].hist.mark <= tr[j].hist.mark
  {
    if i < j {
      MarkGrows(tr, acts, i, j - 1);
      MarkLink(tr, acts, j - 1);
    }
  }

  lemma RequestSetsMark(s: State, key: Key)
    requires InBounds(s) && s.main.pc.MReqSet?
    ensures DoMain(s, key).hist.mark == |s.hist.samples| - 1
  {
  }

  lemma OnlyIdleSleeps(s: State, l: seq<Row>)
    requires InBounds(s) && !s.coll.pc.CAsleep? && DoColl(s, l).coll.pc.CAsleep?
    ensures s.coll.pc.CTest? && !s.sh.refresh && !s.sh.stopping
  {
  }

  /**
   No refresh is lost, even one made in the middle of a sweep: by the time the collector next falls
   asleep, the first sweep begun after the request (number |samples| at that moment) is published.
   */
  lemma NoRefreshIsLost(tr: seq<State>, acts: seq<Action>, i: nat, j: nat)
    requires Run(tr, acts) && Requested(tr, acts, i) && i < j && FallsAsleep(tr, acts, j)
    ensures tr[j].sh.generation >= |tr[i].hist.samples|
  {
    var s, a, s' := LinkIsStep(tr, acts, i);
    RequestSetsMark(s, a.key);
    MarkGrows(tr, acts, i + 1, j);
    var t, c, t' := LinkIsStep(tr, acts, j);
    OnlyIdleSleeps(t, c.listing);
  }

  /** How many steps the collector still has to take until it publishes the sweep asked for, rows not counted twice. */
  function ToGo(pc: CPc, begun: bool): nat {
    var earlier := if begun then 0 else 13;
    match pc
    case CStart => 15
    case CLock | CWoken => 14
    case CTest | CTimedOut => 13
    case CCheck => 12
    case CClear => 11
    case CUnlock => 10
    case CClock => 9
    case CSweep(rest) => 8 + |rest| + earlier
    case CRelock => 7 + earlier
    case CSys => 6 + earlier
    case CDetect => 5 + earlier
    case CFront => 4 + earlier
    case CCount(_) => 3 + earlier
    case CBack(_) => 2 + earlier
    case CBump => 1 + earlier
    case CAsleep | CExit | CExited => 0
  }

  /** Sweep number m was asked for, the collector was told, and it is not published yet. */
  ghost predicate Awaited(s: State, m: nat) {
    s.sh.generation < m <= s.hist.mark + 1 && !s.sh.stopping && !s.coll.pc.CAsleep?
  }

  ghost function StepsLeft(s: State, m: nat): nat { ToGo(s.coll.pc, |s.hist.samples| > m) }

  /** The request is still flagged, or the sweep that answers it is on its way. */
  lemma AwaitedIsComing(s: State, m: nat)
    requires Control(s) && Numbers(s) && Coverage(s) && Awaited(s, m)
    ensures s.sh.refresh || s.coll.pc.CUnlock? || s.coll.pc.CClock? || (Sweeping(s.coll.pc) && |s.hist.samples| == m + 1)
    ensures Sweeping(s.coll.pc) || |s.hist.samples| == m
    ensures StepsLeft(s, m) > 0
  {
  }

  lemma WaitServes(s: State, m: nat)
    requires Control(s) && Numbers(s) && Coverage(s) && CReady(s) && Awaited(s, m)
    requires !Sweeping(s.coll.pc) && !s.coll.pc.CClock?
    ensures var s' := DoWait(s);
            s'.hist.samples == s.hist.samples && Awaited(s', m) && 1 + StepsLeft(s', m) <= StepsLeft(s, m)
  {
    AwaitedIsComing(s, m);
  }

  lemma CollServes(s: State, l: seq<Row>, m: nat)
    requires Control(s) && Numbers(s) && Coverage(s) && InBounds(s) && CReady(s) && Awaited(s, m)
    ensures var s' := DoColl(s, l);
            && s.hist.samples <= s'.hist.samples && |s'.hist.samples| <= |s.hist.samples| + 1
            && (s'.sh.generation >= m
                || (Awaited(s', m) && 1 + StepsLeft(s', m) <= StepsLeft(s, m) + |Begun(s.hist.samples, s'.hist.samples)|))
  {
    AwaitedIsComing(s, m);
    if !Sweeping(s.coll.pc) && !s.coll.pc.CClock? {
      WaitServes(s, m);
    }
  }

  lemma ServingStep(s: State, a: Action, m: nat, n: nat)
    requires Inv(s) && Enabled(s, a) && Awaited(s, m) && n <= |s.hist.samples|
    ensures var s' := Do(s, a);
            && s.hist.samples <= s'.hist.samples
            && (s'.sh.generation >= m || s'.sh.stopping
                || (Awaited(s', m)
                    && (if a.CollStep? then 1 else 0) + StepsLeft(s', m) + Rows(s.hist.samples[n..])
                       <= StepsLeft(s, m) + Rows(s'.hist.samples[n..])))
  {
    if a.CollStep? {
      CollServes(s, a.listing, m);
      RowsOfOneMore(s.hist.samples, Do(s, a).hist.samples, n);
    } else {
      NotTheCollectors(s, a);
    }
  }

  lemma SignalIsHeard(s: State, key: Key)
    requires InBounds(s) && s.main.pc.MReqSignal?
    ensures !DoMain(s, key).coll.pc.CAsleep? && DoMain(s, key).hist == s.hist
  {
  }

  lemma ServedAtOnce(s: State, key: Key)
    requires Inv(s) && InBounds(s) && s.main.pc.MReqSignal?
    requires var s' := DoMain(s, key); !s'.sh.stopping && s'.sh.generation <= s.hist.mark
    ensures Awaited(DoMain(s, key), s.hist.mark + 1)
  {
    SignalIsHeard(s, key);
  }

  lemma StopStays(s: State, a: Action)
    requires Inv(s) && Enabled(s, a)
    ensures s.sh.stopping ==> Do(s, a).sh.stopping
    ensures s.sh.generation <= Do(s, a).sh.generation
  {
    if a.CollStep? {
      CollKeepsMain(s, a.listing);
      if s.sh.stopping {
        CollStoppingStep(s, a.listing);
      }
    } else {
      NotTheCollectors(s, a);
    }
  }

  /** One step of the wait for sweep number m. */
  lemma ServingLink(tr: seq<State>, acts: seq<Action>, k: nat, m: nat, n: nat)
    requires Run(tr, acts) && k < |acts| && n <= |tr[k].hist.samples|
    requires !tr[k + 1].sh.stopping && tr[k + 1].sh.generation < m
    requires !tr[k].sh.stopping && tr[k].sh.generation < m ==> Awaited(tr[k], m)
    ensures Awaited(tr[k], m) && Awaited(tr[k + 1], m) && tr[k].hist.samples <= tr[k + 1].hist.samples
    ensures (if acts[k].CollStep? then 1 else 0) + StepsLeft(tr[k + 1], m) + Rows(tr[k].hist.samples[n..])
         <= StepsLeft(tr[k], m) + Rows(tr[k + 1].hist.samples[n..])
  {
    var s, a, s' := LinkIsStep(tr, acts, k);
    StopStays(s, a);
    ServingStep(s, a, m, n);
  }

  lemma FirstServed(tr: seq<State>, acts: seq<Action>, i: nat)
    requires Run(tr, acts) && i < |acts| && acts[i].MainStep? && tr[i].main.pc.MReqSignal?
    requires !tr[i + 1].sh.stopping && tr[i + 1].sh.generation <= tr[i].hist.mark
    ensures Awaited(tr[i + 1], tr[i].hist.mark + 1)
  {
    var s, a, s' := LinkIsStep(tr, acts, i);
    ServedAtOnce(s, a.key);
  }

  lemma StoppingLink(tr: seq<State>, acts: seq<Action>, k: nat)
    requires Run(tr, acts) && k < |acts| && !tr[k + 1].sh.stopping
    ensures !tr[k].sh.stopping && tr[k].sh.generation <= tr[k + 1].sh.generation
  {
    var s, a, s' := LinkIsStep(tr, acts, k);
    StopStays(s, a);
  }

  /**
   A request that was signalled is served in a bounded number of the collector's own steps, unless main stops
   it first: until the sweep begun after the request is published the collector does not sleep, and the steps
   it took and those it still has to take are at most those it had to take when it was told (at most 21, and
   one for each row of a sweep under way), and one for each row it sweeps meanwhile.
   */
  lemma {:induction false} RefreshIsServed(tr: seq<State>, acts: seq<Action>, i: nat, j: nat)
    requires Run(tr, acts) && i < j < |tr| && acts[i].MainStep? && tr[i].main.pc.MReqSignal?
    requires !tr[j].sh.stopping && tr[j].sh.generation <= tr[i].hist.mark
    ensures Awaited(tr[j], tr[i].hist.mark + 1) && tr[i + 1].hist.samples <= tr[j].hist.samples
    ensures CollSteps(acts[i + 1..j]) + StepsLeft(tr[j], tr[i].hist.mark + 1)
         <= StepsLeft(tr[i + 1], tr[i].hist.mark + 1) + Rows(tr[j].hist.samples[|tr[i + 1].hist.samples|..])
  {
    var k := j - 1;
    if j == i + 1 {
      FirstServed(tr, acts, i);
      assert acts[i + 1..j] == [] && tr[j].hist.samples[|tr[j].hist.samples|..] == [];
    } else {
      StoppingLink(tr, acts, k);
      RefreshIsServed(tr, acts, i, k);
      OneMoreAct(acts, i + 1, j);
      ServingLink(tr, acts, k, tr[i].hist.mark + 1, |tr[i + 1].hist.samples|);
    }
  }

  lemma AtMostStepsLeft(s: State, m: nat)
    ensures StepsLeft(s, m) <= 21 + if s.coll.pc.CSweep? then |s.coll.pc.rest| else 0
  {
  }

  /** Requests coalesce: the sweeps made on request never outnumber the requests. */
  lemma RequestsCoalesce(tr: seq<State>, acts: seq<Action>, n: nat)
    requires Run(tr, acts) && n < |tr|
    ensures tr[n].hist.served <= tr[n].hist.requests
  {
    RunInv(tr, acts, n);
  }

  // ---- Spacing ----

  ghost predicate SweepStarts(tr: seq<State>, acts: seq<Action>, i: nat) {
    i < |acts| && i < |tr| && acts[i].CollStep? && tr[i].coll.pc.CClock?
  }

  lemma CollKeepsLast(s: State, l: seq<Row>)
    requires InBounds(s) && !s.coll.pc.CStart? && !s.coll.pc.CClock?
    ensures DoColl(s, l).coll.last == s.coll.last && !DoColl(s, l).coll.pc.CStart?
  {
  }

  lemma StepKeepsLast(s: State, a: Action)
    requires Inv(s) && Enabled(s, a) && !s.coll.pc.CStart? && !(a.CollStep? && s.coll.pc.CClock?)
    ensures Do(s, a).coll.last == s.coll.last && !Do(s, a).coll.pc.CStart?
  {
    if a.CollStep? {
      CollKeepsLast(s, a.listing);
    } else {
      NotTheCollectors(s, a);
    }
  }

  lemma {:induction false} LastIsTheStart(tr: seq<State>, acts: seq<Action>, i: nat, j: nat)
    requires Run(tr, acts) && SweepStarts(tr, acts, i) && i < j < |tr|
    requires forall k :: i < k < j ==> !SweepStarts(tr, acts, k)
    ensures Nanos(tr[j].coll.last) == tr[i].now && !tr[j].coll.pc.CStart?
  {
    if j > i + 1 {
      LastIsTheStart(tr, acts, i, j - 1);
      assert !SweepStarts(tr, acts, j - 1);
      var s, a, s' := LinkIsStep(tr, acts, j - 1);
      StepKeepsLast(s, a);
    } else {
      var s, a, s' := LinkIsStep(tr, acts, i);
    }
  }

  /** Two consecutive sweeps, the second not made on request, begin at least 500 ms apart. */
  lemma SweepsAreSpaced(tr: seq<State>, acts: seq<Action>, i: nat, j: nat)
    requires Run(tr, acts) && SweepStarts(tr, acts, i) && SweepStarts(tr, acts, j) && i < j
    requires forall k :: i < k < j ==> !SweepStarts(tr, acts, k)
    ensures tr[j].coll.byRequest || tr[j].now - tr[i].now >= 500 * NS_PER_MS
  {
    LastIsTheStart(tr, acts, i, j);
    RunInv(tr, acts, j);
  }

  ghost predicate Begins(tr: seq<State>, acts: seq<Action>, i: nat) {
    i < |acts| && i < |tr| && acts[i].CollStep? && tr[i].coll.pc.CStart?
  }

  lemma StaysAtStart(s: State, a: Action)
    requires Inv(s) && Enabled(s, a) && s.coll.pc.CStart? && !a.CollStep?
    ensures Do(s, a).coll.pc.CStart?
  {
    NotTheCollectors(s, a);
  }

  /** Until the first sweep the collector counts from the time at which it began. */
  lemma {:induction false} CountsFromTheStart(tr: seq<State>, acts: seq<Action>, n: nat) returns (i: nat)
    requires Run(tr, acts) && n < |tr| && !tr[n].coll.pc.CStart?
    requires forall k :: 0 <= k < n ==> !SweepStarts(tr, acts, k)
    ensures i < n && Begins(tr, acts, i) && Nanos(tr[n].coll.last) == tr[i].now
  {
    if n > 0 {
      i := n - 1;
      var s, a, s' := LinkIsStep(tr, acts, i);
      if s.coll.pc.CStart? {
        if !a.CollStep? {
          StaysAtStart(s, a);
        }
      } else {
        i := CountsFromTheStart(tr, acts, n - 1);
        assert !SweepStarts(tr, acts, n - 1);
        StepKeepsLast(s, a);
      }
    }
  }

  /** The first sweep, if it is not made on request, begins at least 500 ms after the collector did. */
  lemma FirstSweepWaits(tr: seq<State>, acts: seq<Action>, j: nat) returns (i: nat)
    requires Run(tr, acts) && SweepStarts(tr, acts, j)
    requires forall k :: 0 <= k < j ==> !SweepStarts(tr, acts, k)
    ensures i < j && Begins(tr, acts, i)
    ensures tr[j].coll.byRequest || tr[j].now - tr[i].now >= 500 * NS_PER_MS
  {
    i := CountsFromTheStart(tr, acts, j);
    RunInv(tr, acts, j);
  }

  // ---- The deadline ----

  /** On the way from a deadline to a sweep, and how many steps before it. */
  predicate Rising(pc: CPc) { pc.CTimedOut? || pc.CCheck? || pc.CClear? || pc.CUnlock? || pc.CClock? }

  function ToSweep(pc: CPc): nat {
    if pc.CTimedOut? then 4 else if pc.CCheck? then 3 else if pc.CClear? then 2 else if pc.CUnlock? then 1 else 0
  }

  lemma RisesOn(s: State, a: Action)
    requires Inv(s) && Enabled(s, a) && Rising(s.coll.pc) && !s.coll.pc.CClock? && !s.sh.stopping
    ensures Rising(Do(s, a).coll.pc)
    ensures (if a.CollStep? then 1 else 0) + ToSweep(Do(s, a).coll.pc) <= ToSweep(s.coll.pc)
  {
    if !a.CollStep? {
      NotTheCollectors(s, a);
    }
  }

  lemma RiseStays(s: State, a: Action)
    requires Inv(s) && Enabled(s, a) && s.coll.pc.CClock? && !a.CollStep?
    ensures Do(s, a).coll.pc.CClock?
  {
    NotTheCollectors(s, a);
  }

  /**
   A deadline that has passed gives a sweep: once the wait has ended by it, the collector does not wait again before
   it sweeps or is stopped, and it is at the sweep after at most four steps of its own.
   */
  lemma {:induction false} DeadlineGivesSweep(tr: seq<State>, acts: seq<Action>, i: nat, j: nat)
    requires Run(tr, acts) && i < j < |tr| && acts[i].TimeOut? && !tr[j].sh.stopping
    requires forall k :: i < k < j ==> !SweepStarts(tr, acts, k)
    ensures Rising(tr[j].coll.pc) && CollSteps(acts[i + 1..j]) + ToSweep(tr[j].coll.pc) <= 4
  {
    var k := j - 1;
    var s, a, s' := LinkIsStep(tr, acts, k);
    if k == i {
      assert acts[i + 1..j] == [];
    } else {
      StoppingLink(tr, acts, k);
      DeadlineGivesSweep(tr, acts, i, k);
      OneMoreAct(acts, i + 1, j);
      assert !SweepStarts(tr, acts, k);
      if s.coll.pc.CClock? {
        RiseStays(s, a);
      } else {
        RisesOn(s, a);
      }
    }
  }

  // ---- Shutdown ----

  /** 1 while a sweep that passed the test of `stopping` is not yet published. */
  function InFlight(pc: CPc): int {
    if pc.CClear? || pc.CUnlock? || pc.CClock? || Sweeping(pc) then 1 else 0
  }

  lemma CollStoppingStep(s: State, l: seq<Row>)
    requires InBounds(s) && s.sh.stopping
    ensures var s' := DoColl(s, l);
            && s'.sh.stopping
            && s'.sh.generation + InFlight(s'.coll.pc) <= s.sh.generation + InFlight(s.coll.pc)
  {
  }

  lemma StoppingStep(s: State, a: Action, s': State)
    requires Inv(s) && Enabled(s, a) && s' == Do(s, a) && s.sh.stopping
    ensures s'.sh.stopping
    ensures s'.sh.generation + InFlight(s'.coll.pc) <= s.sh.generation + InFlight(s.coll.pc)
  {
    if a.CollStep? {
      CollStoppingStep(s, a.listing);
    } else {
      NotTheCollectors(s, a);
    }
  }

  lemma PublishLink(tr: seq<State>, acts: seq<Action>, k: nat)
    requires Run(tr, acts) && k < |acts| && tr[k].sh.stopping
    ensures tr[k + 1].sh.stopping
    ensures tr[k + 1].sh.generation + InFlight(tr[k + 1].coll.pc) <= tr[k].sh.generation + InFlight(tr[k].coll.pc)
  {
    var s, a, s' := LinkIsStep(tr, acts, k);
    StoppingStep(s, a, s');
  }

  /** After `stopping` is set at most one more sample is published, and only if a sweep was under way. */
  lemma {:induction false} AtMostOneMorePublish(tr: seq<State>, acts: seq<Action>, i: nat, j: nat)
    requires Run(tr, acts) && i <= j < |tr| && tr[i].sh.stopping
    ensures tr[j].sh.stopping
    ensures tr[j].sh.generation + InFlight(tr[j].coll.pc) <= tr[i].sh.generation + InFlight(tr[i].coll.pc)
  {
    if i < j {
      AtMostOneMorePublish(tr, acts, i, j - 1);
      PublishLink(tr, acts, j - 1);
    }
  }

  function Distance(pc: CPc): nat {
    match pc
    case CStart => 17
    case CLock => 16
    case CClear => 15
    case CUnlock => 14
    case CClock => 13
    case CSweep(rest) => 12 + |rest|
    case CRelock => 11
    case CSys => 10
    case CDetect => 9
    case CFront => 8
    case CCount(_) => 7
    case CBack(_) => 6
    case CBump => 5
    case CAsleep | CWoken | CTimedOut => 4
    case CTest => 3
    case CCheck => 2
    case CExit => 1
    case CExited => 0
  }

  ghost predicate Closer(s: State, s': State) {
    && s.hist.samples <= s'.hist.samples && |s'.hist.samples| <= |s.hist.samples| + 1
    && Distance(s'.coll.pc) < Distance(s.coll.pc) + |Begun(s.hist.samples, s'.hist.samples)|
  }

  lemma CollShutdownStep(s: State, l: seq<Row>)
    requires InBounds(s) && CReady(s) && s.sh.stopping
    ensures DoColl(s, l).main == s.main && Closer(s, DoColl(s, l))
  {
  }

  lemma OtherShutdownStep(s: State, a: Action)
    requires Inv(s) && Enabled(s, a) && AfterStop(s.main.pc) && !Signalling(s.main.pc) && !a.CollStep?
    ensures var s' := Do(s, a);
            && AfterStop(s'.main.pc) && !Signalling(s'.main.pc)
            && s'.coll == s.coll && s'.hist.samples == s.hist.samples
  {
  }

  lemma ShutdownStep(s: State, a: Action, n: nat)
    requires Inv(s) && Enabled(s, a) && AfterStop(s.main.pc) && !Signalling(s.main.pc) && n <= |s.hist.samples|
    ensures var s' := Do(s, a);
            && AfterStop(s'.main.pc) && !Signalling(s'.main.pc) && s.hist.samples <= s'.hist.samples
            && (if a.CollStep? then 1 else 0) + Distance(s'.coll.pc) + Rows(s.hist.samples[n..])
               <= Distance(s.coll.pc) + Rows(s'.hist.samples[n..])
  {
    if a.CollStep? {
      CollShutdownStep(s, a.listing);
      RowsOfOneMore(s.hist.samples, Do(s, a).hist.samples, n);
    } else {
      OtherShutdownStep(s, a);
    }
  }

  lemma ShutdownLink(tr: seq<State>, acts: seq<Action>, k: nat, n: nat)
    requires Run(tr, acts) && k < |acts| && AfterStop(tr[k].main.pc) && !Signalling(tr[k].main.pc) && n <= |tr[k].hist.samples|
    ensures AfterStop(tr[k + 1].main.pc) && !Signalling(tr[k + 1].main.pc) && tr[k].hist.samples <= tr[k + 1].hist.samples
    ensures (if acts[k].CollStep? then 1 else 0) + Distance(tr[k + 1].coll.pc) + Rows(tr[k].hist.samples[n..])
         <= Distance(tr[k].coll.pc) + Rows(tr[k + 1].hist.samples[n..])
  {
    var s, a, s' := LinkIsStep(tr, acts, k);
    ShutdownStep(s, a, n);
  }

  /**
   Once main has signalled the stop, the collector reaches its exit after a bounded number of its own
   steps: 17, and one for each row of the sweep it may still have to do.
   */
  lemma {:induction false} JoinIsBounded(tr: seq<State>, acts: seq<Action>, i: nat, j: nat)
    requires Run(tr, acts) && i <= j < |tr| && AfterStop(tr[i].main.pc) && !Signalling(tr[i].main.pc)
    ensures AfterStop(tr[j].main.pc) && !Signalling(tr[j].main.pc) && tr[i].hist.samples <= tr[j].hist.samples
    ensures CollSteps(acts[i..j]) + Distance(tr[j].coll.pc)
         <= Distance(tr[i].coll.pc) + Rows(tr[j].hist.samples[|tr[i].hist.samples|..])
  {
    if i < j {
      JoinIsBounded(tr, acts, i, j - 1);
      OneMoreAct(acts, i, j);
      ShutdownLink(tr, acts, j - 1, |tr[i].hist.samples|);
    }
  }

  lemma AtMostDistance(pc: CPc)
    ensures Distance(pc) <= 17 + if pc.CSweep? then |pc.rest| else 0
  {
  }

  /** And while main waits in the join, the collector can always take its next step without time passing. */
  lemma JoinNeverHangs(tr: seq<State>, acts: seq<Action>, n: nat, l: seq<Row>)
    requires Run(tr, acts) && n < |tr| && tr[n].main.pc == MJoin
    ensures tr[n].coll.pc == CExited || Enabled(tr[n], CollStep(l))
  {
    RunInv(tr, acts, n);
  }

  /** After the lock and the condition are destroyed no thread of the program can take a step. */
  lemma NothingAfterDestroy(tr: seq<State>, acts: seq<Action>, n: nat, a: Action)
    requires Run(tr, acts) && n < |tr| && tr[n].destroyed
    ensures tr[n].lock == Free && tr[n].coll.pc == CExited
    ensures Enabled(tr[n], a) ==> a.Tick? || a.Interrupt?
  {
    RunInv(tr, acts, n);
  }

  /** Main never holds the lock while it waits for a key, an answer or the join. */
  lemma NeverWaitsHoldingTheLock(tr: seq<State>, acts: seq<Action>, n: nat)
    requires Run(tr, acts) && n < |tr|
    requires tr[n].main.pc.MKey? || tr[n].main.pc.MConfirm? || tr[n].main.pc.MJoin?
    ensures tr[n].lock != Main
  {
    RunInv(tr, acts, n);
  }

  /** Until main is done, one of the two threads can always step, with no help from the clock or a spurious wakeup. */
  lemma NeverStuck(tr: seq<State>, acts: seq<Action>, n: nat, key: Key, l: seq<Row>)
    requires Run(tr, acts) && n < |tr| && tr[n].main.pc != MDone
    ensures Enabled(tr[n], MainStep(key)) || Enabled(tr[n], CollStep(l))
  {
    RunInv(tr, acts, n);
    BoundsHold(tr[n]);
  }

  lemma BoundsHold(s: State)
    requires Inv(s)
    ensures InBounds(s)
  {
  }
}
