/** What every reachable state of the two-thread system satisfies. */
module CollectorInvariant {
  import opened Clock
  import opened Collector

  const MIN_NS: int := MIN_MS * NS_PER_MS

  ghost predicate Mutex(s: State) {
    && (s.lock == Coll <==> CHolds(s.coll.pc))
    && (s.lock == Main <==> MHolds(s.main.pc))
  }

  predicate Signalling(pc: MPc) { pc.MReqSignal? || pc.MIntSignal? || pc.MStopSignal? }

  predicate AfterStop(pc: MPc) { pc.MStopSignal? || pc.MStopUnlock? || pc.MJoin? || pc.MDestroy? || pc.MDone? }

  ghost predicate Control(s: State) {
    && MIN_MS <= s.main.interval <= MAX_MS
    && MIN_MS <= s.sh.interval <= MAX_MS
    && (!s.main.pc.MIntLock? && !s.main.pc.MIntSet? ==> s.sh.interval == s.main.interval)
    && (s.sh.stopping <==> AfterStop(s.main.pc))
    && (s.coll.pc.CExit? || s.coll.pc.CExited? ==> s.sh.stopping)
    && (s.main.pc.MDestroy? || s.main.pc.MDone? ==> s.coll.pc.CExited?)
    && (s.destroyed <==> s.main.pc.MDone?)
  }

  /** Asleep with nobody about to signal: nothing is pending, and the deadline is the current one. */
  ghost predicate Wakeup(s: State) {
    s.coll.pc.CAsleep? && !Signalling(s.main.pc) ==>
      !s.sh.stopping && !s.sh.refresh && s.coll.deadline == AddMs(s.coll.last, s.sh.interval)
  }

  ghost predicate Due(s: State) { s.now >= Nanos(s.coll.last) + MIN_NS }

  ghost predicate Timing(s: State) {
    && (!s.coll.pc.CStart? ==> Normal(s.coll.last) && Nanos(s.coll.last) <= s.now)
    && (s.coll.pc.CAsleep? ==> Nanos(s.coll.deadline) >= Nanos(s.coll.last) + MIN_NS)
    && (s.coll.pc.CTimedOut? ==> Due(s))
    && (s.coll.pc.CCheck? ==> s.sh.stopping || s.sh.refresh || Due(s))
    && (s.coll.pc.CClear? ==> s.sh.refresh || Due(s))
    && (s.coll.pc.CUnlock? || s.coll.pc.CClock? ==> s.coll.byRequest || Due(s))
  }

  predicate Sweeping(pc: CPc) {
    pc.CSweep? || pc.CRelock? || pc.CSys? || pc.CDetect? || pc.CFront? || pc.CCount? || pc.CBack? || pc.CBump?
  }

  predicate FrontMoved(pc: CPc) { pc.CCount? || pc.CBack? || pc.CBump? }

  /** A buffer that holds exactly these rows below its count. */
  predicate Holds(buf: seq<Row>, count: nat, rows: seq<Row>) {
    count <= |buf| && buf[..count] == rows
  }

  /** One sample per sweep begun; the current one is number `generation`. */
  ghost predicate Numbers(s: State) {
    && |s.hist.samples| == s.sh.generation + (if Sweeping(s.coll.pc) then 2 else 1)
    && s.mon.sys == s.sh.generation + (if s.coll.pc.CDetect? || s.coll.pc.CFront? || FrontMoved(s.coll.pc) then 1 else 0)
    && s.mon.events == s.sh.generation + (if s.coll.pc.CFront? || FrontMoved(s.coll.pc) then 1 else 0)
  }

  ghost predicate Buffers(s: State) {
    && |s.mon.bufs| == 2 && s.mon.front < 2 && s.mon.back < 2
    && (if s.coll.pc.CCount? then s.mon.front == s.mon.back && s.coll.pc.tmp == 1 - s.mon.front
        else if s.coll.pc.CBack? then s.mon.front == s.mon.back && s.coll.pc.tmp == 1 - s.mon.front
        else s.mon.front != s.mon.back)
    && s.mon.backCount <= |s.mon.bufs[s.mon.back]|
  }

  ghost predicate Contents(s: State)
    requires Numbers(s) && Buffers(s)
  {
    var g := s.sh.generation;
    var front := s.mon.bufs[s.mon.front];
    var back := s.mon.bufs[s.mon.back];
    && (s.coll.pc.CSweep? ==> back[..s.mon.backCount] + s.coll.pc.rest == s.hist.samples[g + 1])
    && (s.coll.pc.CRelock? || s.coll.pc.CSys? || s.coll.pc.CDetect? || s.coll.pc.CFront? || s.coll.pc.CCount? ==>
          Holds(back, s.mon.backCount, s.hist.samples[g + 1]))
    && (s.coll.pc.CBack? || s.coll.pc.CBump? ==> Holds(front, s.mon.count, s.hist.samples[g + 1]))
    && (!FrontMoved(s.coll.pc) ==> Holds(front, s.mon.count, s.hist.samples[g]))
  }

  /** The process and system monitors agree with the history of sweeps at every point. */
  ghost predicate Coherent(s: State) { Numbers(s) && Buffers(s) && Contents(s) }

  predicate Drawing(pc: MPc) { pc.MDrawEvents? || pc.MDrawCount? || pc.MDrawRow? }

  /** A whole frame, all of it from one sample. */
  ghost predicate Whole(s: State, v: View) {
    && 0 <= v.gen <= s.sh.generation && v.gen < |s.hist.samples|
    && v.sys == v.events == v.gen && v.rows == s.hist.samples[v.gen] && v.count == |v.rows|
  }

  ghost predicate Frame(s: State) {
    var v := s.main.view;
    && s.main.drawn <= s.sh.generation
    && (s.main.pc.MDrawSys? || Drawing(s.main.pc) || s.main.pc.MDrawUnlock? ==> s.main.drawn == s.sh.generation)
    && (Drawing(s.main.pc) ==> v.gen == s.main.drawn && v.sys == v.gen && s.main.needsRedraw)
    && (s.main.pc.MDrawSys? ==> s.main.needsRedraw)
    && (s.main.pc.MDrawCount? || s.main.pc.MDrawRow? ==> v.events == v.gen)
    && (s.main.pc.MDrawRow? ==>
          s.main.drawn < |s.hist.samples| && s.main.pc.i <= v.count == s.mon.count == |s.hist.samples[s.main.drawn]|
          && v.rows == s.hist.samples[s.main.drawn][..s.main.pc.i])
    && (!Drawing(s.main.pc) ==> (v.gen == -1 || Whole(s, v)) && (s.main.needsRedraw || v.gen == s.main.drawn))
  }

  /** The answer to a lookup: a row of the sample with the PID, or nothing if it has none. */
  ghost predicate Answer(rows: seq<Row>, pid: int, name: seq<Row>) {
    if name == [] then forall i :: 0 <= i < |rows| ==> rows[i].pid != pid
    else |name| == 1 && name[0].pid == pid && name[0] in rows
  }

  /** The row pointer and the copied name of signal_selected. */
  ghost predicate Lookup(s: State) {
    && (s.main.pc.MCopy? ==>
          && s.main.pc.buf == s.mon.front < |s.mon.bufs|
          && IsAt(s.mon.bufs[s.mon.front], s.mon.count, s.main.pc.pid, s.main.pc.index))
    && (s.main.pc.MFindUnlock? ==>
          s.sh.generation < |s.hist.samples| && Answer(s.hist.samples[s.sh.generation], s.main.pc.pid, s.main.pc.name))
    && (s.main.pc.MConfirm? ==> |s.main.pc.name| == 1 && s.main.pc.name[0].pid == s.main.pc.pid)
  }

  /** A request that is no longer flagged is covered by a sweep that began after it. */
  ghost predicate Coverage(s: State) {
    && s.hist.mark <= |s.hist.samples| - 1
    && s.hist.served + (if s.sh.refresh then 1 else 0) <= s.hist.requests
    && (!s.sh.refresh && Sweeping(s.coll.pc) ==> s.hist.mark <= s.sh.generation)
    && (!s.sh.refresh && !Sweeping(s.coll.pc) && !s.coll.pc.CUnlock? && !s.coll.pc.CClock? ==> s.hist.mark < s.sh.generation)
  }

  ghost predicate Inv(s: State) {
    Mutex(s) && Control(s) && Wakeup(s) && Timing(s) && Coherent(s) && Frame(s) && Lookup(s) && Coverage(s)
  }

  lemma InitialInv(s: State)
    requires Initial(s)
    ensures Inv(s)
  {
  }

  // ---- The collector's steps ----

  lemma CollKeepsMutex(s: State, l: seq<Row>)
    requires Mutex(s) && InBounds(s) && CReady(s)
    ensures Mutex(DoColl(s, l))
  {
  }

  lemma CollKeepsControl(s: State, l: seq<Row>)
    requires Mutex(s) && Control(s) && InBounds(s) && CReady(s)
    ensures Control(DoColl(s, l))
  {
  }

  lemma CollKeepsWakeup(s: State, l: seq<Row>)
    requires Mutex(s) && Wakeup(s) && InBounds(s) && CReady(s)
    ensures Wakeup(DoColl(s, l))
  {
  }

  lemma WaitKeepsTiming(s: State)
    requires Control(s) && Timing(s) && !Sweeping(s.coll.pc) && !s.coll.pc.CClock?
    ensures Timing(DoWait(s))
  {
    AddMsIsExact(s.coll.last, s.sh.interval);
  }

  lemma SweepKeepsTiming(s: State, l: seq<Row>)
    requires Timing(s) && InBounds(s) && (s.coll.pc.CClock? || s.coll.pc.CSweep?)
    ensures Timing(DoSweep(s, l))
  {
  }

  lemma PublishKeepsTiming(s: State)
    requires Timing(s) && Publishing(s.coll.pc)
    ensures Timing(DoPublish(s))
  {
  }

  lemma CollKeepsTiming(s: State, l: seq<Row>)
    requires Control(s) && Timing(s) && InBounds(s)
    ensures Timing(DoColl(s, l))
  {
    if s.coll.pc.CClock? || s.coll.pc.CSweep? {
      SweepKeepsTiming(s, l);
    } else if Publishing(s.coll.pc) {
      PublishKeepsTiming(s);
    } else {
      WaitKeepsTiming(s);
    }
  }

  /** Steps that leave the monitors alone, outside the sweep. */
  lemma SameMonitor(s: State, s': State)
    requires Coherent(s) && s'.mon == s.mon
    requires s'.hist.samples == s.hist.samples && s'.sh.generation == s.sh.generation
    requires s'.coll.pc == s.coll.pc || (!Sweeping(s.coll.pc) && !Sweeping(s'.coll.pc))
    ensures Coherent(s')
  {
  }

  /** Each row goes to the back buffer only, after the rows already there. */
  lemma WriteAppends(back: seq<Row>, n: nat, rest: seq<Row>)
    requires n <= |back| && rest != []
    ensures Write(back, n, rest[0])[..n + 1] + rest[1..] == back[..n] + rest
  {
    assert Write(back, n, rest[0])[..n + 1] == back[..n] + [rest[0]];
  }

  lemma WaitKeepsCoherent(s: State)
    requires Coherent(s) && !Sweeping(s.coll.pc) && !s.coll.pc.CClock?
    ensures Coherent(DoWait(s))
  {
    SameMonitor(s, DoWait(s));
  }

  lemma SweepKeepsCoherent(s: State, l: seq<Row>)
    requires Coherent(s) && InBounds(s) && (s.coll.pc.CClock? || s.coll.pc.CSweep?)
    ensures Coherent(DoSweep(s, l))
  {
    if s.coll.pc.CSweep? && s.coll.pc.rest != [] {
      WriteAppends(s.mon.bufs[s.mon.back], s.mon.backCount, s.coll.pc.rest);
    }
  }

  predicate Publishing(pc: CPc) { Sweeping(pc) && !pc.CSweep? }

  lemma PublishKeepsNumbers(s: State)
    requires Numbers(s) && Publishing(s.coll.pc)
    ensures Numbers(DoPublish(s))
  {
  }

  lemma PublishKeepsBuffers(s: State)
    requires Coherent(s) && Publishing(s.coll.pc)
    ensures Buffers(DoPublish(s))
  {
  }

  lemma PublishKeepsCoherent(s: State)
    requires Coherent(s) && Publishing(s.coll.pc)
    ensures Coherent(DoPublish(s))
  {
    PublishKeepsNumbers(s);
    PublishKeepsBuffers(s);
  }

  lemma CollKeepsCoherent(s: State, l: seq<Row>)
    requires Coherent(s) && InBounds(s)
    ensures Coherent(DoColl(s, l))
  {
    if s.coll.pc.CClock? || s.coll.pc.CSweep? {
      SweepKeepsCoherent(s, l);
    } else if Publishing(s.coll.pc) {
      PublishKeepsCoherent(s);
    } else {
      WaitKeepsCoherent(s);
    }
  }

  lemma WaitKeepsCoverage(s: State)
    requires Numbers(s) && Coverage(s) && CReady(s) && !Sweeping(s.coll.pc) && !s.coll.pc.CClock?
    ensures Coverage(DoWait(s))
  {
  }

  lemma CollKeepsCoverage(s: State, l: seq<Row>)
    requires Numbers(s) && Coverage(s) && InBounds(s) && CReady(s)
    ensures Coverage(DoColl(s, l))
  {
    if !Sweeping(s.coll.pc) && !s.coll.pc.CClock? {
      WaitKeepsCoverage(s);
    }
  }

  /** A later generation, or one more sample, leaves what main has on the screen whole. */
  lemma FrameSurvives(s: State, s': State)
    requires Frame(s) && Lookup(s) && !MHolds(s.main.pc)
    requires s'.main == s.main && s.sh.generation <= s'.sh.generation && s.hist.samples <= s'.hist.samples
    ensures Frame(s') && Lookup(s')
  {
    assert s.main.view.gen != -1 ==> Whole(s', s.main.view);
  }

  /** What main may be reading does not move. */
  ghost predicate SameForReaders(s: State, s': State) {
    && s'.sh == s.sh && s'.lock == s.lock
    && s.mon.front < |s.mon.bufs| == |s'.mon.bufs|
    && s'.mon.front == s.mon.front && s'.mon.count == s.mon.count
    && s'.mon.bufs[s.mon.front] == s.mon.bufs[s.mon.front]
    && s'.mon.events == s.mon.events && s'.mon.sys == s.mon.sys
  }

  /** While main reads, the collector can only sweep. */
  lemma ReadersAreSafe(s: State, l: seq<Row>)
    requires Mutex(s) && Buffers(s) && InBounds(s) && CReady(s) && MHolds(s.main.pc)
    ensures SameForReaders(s, DoColl(s, l))
  {
  }

  lemma CollKeepsMain(s: State, l: seq<Row>)
    requires InBounds(s)
    ensures DoColl(s, l).main == s.main && DoColl(s, l).hist.mark == s.hist.mark
    ensures s.sh.generation <= DoColl(s, l).sh.generation && s.hist.samples <= DoColl(s, l).hist.samples
  {
  }

  lemma CollKeepsFrame(s: State, l: seq<Row>)
    requires Mutex(s) && Coherent(s) && Frame(s) && Lookup(s) && InBounds(s) && CReady(s)
    ensures Frame(DoColl(s, l)) && Lookup(DoColl(s, l))
  {
    var s' := DoColl(s, l);
    CollKeepsMain(s, l);
    if MHolds(s.main.pc) {
      ReadersAreSafe(s, l);
      HeldFrameSurvives(s, s');
      HeldLookupSurvives(s, s');
    } else {
      FrameSurvives(s, s');
    }
  }

  lemma HeldFrameSurvives(s: State, s': State)
    requires Numbers(s) && Frame(s) && s'.main == s.main && s.hist.samples <= s'.hist.samples && SameForReaders(s, s')
    ensures Frame(s')
  {
    assert s.sh.generation < |s.hist.samples|;
  }

  lemma HeldLookupSurvives(s: State, s': State)
    requires Numbers(s) && Lookup(s) && s'.main == s.main && s.hist.samples <= s'.hist.samples && SameForReaders(s, s')
    ensures Lookup(s')
  {
    assert s.sh.generation < |s.hist.samples|;
  }

  lemma CollKeepsInv(s: State, l: seq<Row>)
    requires Inv(s) && InBounds(s) && CReady(s)
    ensures Inv(DoColl(s, l))
  {
    CollKeepsMutex(s, l);
    CollKeepsControl(s, l);
    CollKeepsWakeup(s, l);
    CollKeepsTiming(s, l);
    CollKeepsCoherent(s, l);
    CollKeepsCoverage(s, l);
    CollKeepsFrame(s, l);
  }

  // ---- The main thread's steps: the three short critical sections ----

  lemma RefreshKeepsControl(s: State)
    requires Mutex(s) && Control(s) && MReady(s) && Refreshing(s.main.pc)
    ensures Mutex(DoRefresh(s)) && Control(DoRefresh(s))
  {
  }

  lemma RefreshKeepsTiming(s: State)
    requires Mutex(s) && Wakeup(s) && Timing(s) && MReady(s) && Refreshing(s.main.pc)
    ensures Wakeup(DoRefresh(s)) && Timing(DoRefresh(s))
  {
  }

  lemma RefreshKeepsCoverage(s: State)
    requires Mutex(s) && Numbers(s) && Coverage(s) && MReady(s) && Refreshing(s.main.pc)
    ensures Coverage(DoRefresh(s))
  {
  }

  lemma IntervalKeepsControl(s: State)
    requires Mutex(s) && Control(s) && MReady(s) && Adjusting(s.main.pc)
    ensures Mutex(DoInterval(s)) && Control(DoInterval(s))
  {
  }

  lemma IntervalKeepsTiming(s: State)
    requires Mutex(s) && Wakeup(s) && Timing(s) && MReady(s) && Adjusting(s.main.pc)
    ensures Wakeup(DoInterval(s)) && Timing(DoInterval(s))
  {
  }

  predicate Ending(pc: MPc) {
    pc.MStopLock? || pc.MStopSet? || pc.MStopSignal? || pc.MStopUnlock? || pc.MJoin? || pc.MDestroy?
  }

  lemma StopKeepsControl(s: State)
    requires Mutex(s) && Control(s) && MReady(s) && Ending(s.main.pc)
    ensures Mutex(DoStop(s)) && Control(DoStop(s))
  {
  }

  lemma StopKeepsTiming(s: State)
    requires Mutex(s) && Wakeup(s) && Timing(s) && MReady(s) && Ending(s.main.pc)
    ensures Wakeup(DoStop(s)) && Timing(DoStop(s))
  {
  }

  /** Nothing of the frame or of a row is in hand while main is away from the drawing code and the lookup. */
  predicate Away(pc: MPc) {
    !Drawing(pc) && !pc.MDrawSys? && !pc.MDrawUnlock? && !pc.MCopy? && !pc.MFindUnlock? && !pc.MConfirm?
  }

  lemma AwayKeepsFrame(s: State, s': State)
    requires Frame(s) && Away(s.main.pc) && Away(s'.main.pc)
    requires s'.main.view == s.main.view && s'.main.drawn == s.main.drawn
    requires s.main.needsRedraw ==> s'.main.needsRedraw
    requires s'.sh.generation == s.sh.generation && s'.hist.samples == s.hist.samples
    ensures Frame(s') && Lookup(s')
  {
  }

  /** A step that touches neither the monitors nor the counts behind the coverage. */
  lemma SameCoverage(s: State, s': State)
    requires Coverage(s) && s'.sh.refresh == s.sh.refresh && s'.sh.generation == s.sh.generation && s'.hist == s.hist
    requires s'.coll.pc == s.coll.pc || (s.coll.pc.CAsleep? && (s'.coll.pc.CWoken? || s'.coll.pc.CTimedOut?))
    ensures Coverage(s')
  {
  }

  /** What a step of a critical section leaves alone. */
  ghost predicate SectionStep(s: State, s': State) {
    && s'.mon == s.mon && s'.hist.samples == s.hist.samples && s'.sh.generation == s.sh.generation
    && s'.main.view == s.main.view && s'.main.drawn == s.main.drawn && s'.main.needsRedraw == s.main.needsRedraw
    && Away(s.main.pc) && Away(s'.main.pc) && (s.sh.stopping ==> s'.sh.stopping)
    && (s'.coll.pc == s.coll.pc || (s.coll.pc.CAsleep? && s'.coll.pc.CWoken?))
  }

  lemma SectionKeeps(s: State, s': State)
    requires Coherent(s) && Frame(s) && SectionStep(s, s')
    ensures Coherent(s') && Frame(s') && Lookup(s')
  {
    SameMonitor(s, s');
    AwayKeepsFrame(s, s');
  }

  lemma RefreshIsSection(s: State)
    requires Refreshing(s.main.pc)
    ensures SectionStep(s, DoRefresh(s))
  {
  }

  lemma IntervalIsSection(s: State)
    requires Adjusting(s.main.pc)
    ensures SectionStep(s, DoInterval(s))
  {
  }

  lemma StopIsSection(s: State)
    requires Ending(s.main.pc)
    ensures SectionStep(s, DoStop(s))
  {
  }

  lemma IntervalKeepsCoverage(s: State)
    requires Coverage(s) && Adjusting(s.main.pc)
    ensures Coverage(DoInterval(s))
  {
    SameCoverage(s, DoInterval(s));
  }

  lemma StopKeepsCoverage(s: State)
    requires Coverage(s) && Ending(s.main.pc)
    ensures Coverage(DoStop(s))
  {
    SameCoverage(s, DoStop(s));
  }

  lemma RefreshKeepsInv(s: State)
    requires Inv(s) && MReady(s) && Refreshing(s.main.pc)
    ensures Inv(DoRefresh(s))
  {
    RefreshKeepsControl(s);
    RefreshKeepsTiming(s);
    RefreshKeepsCoverage(s);
    RefreshIsSection(s);
    SectionKeeps(s, DoRefresh(s));
  }

  lemma IntervalKeepsInv(s: State)
    requires Inv(s) && MReady(s) && Adjusting(s.main.pc)
    ensures Inv(DoInterval(s))
  {
    IntervalKeepsControl(s);
    IntervalKeepsTiming(s);
    IntervalIsSection(s);
    SectionKeeps(s, DoInterval(s));
    IntervalKeepsCoverage(s);
  }

  lemma StopKeepsInv(s: State)
    requires Inv(s) && MReady(s) && Ending(s.main.pc)
    ensures Inv(DoStop(s))
  {
    StopKeepsControl(s);
    StopKeepsTiming(s);
    StopIsSection(s);
    SectionKeeps(s, DoStop(s));
    StopKeepsCoverage(s);
  }

  // ---- The main thread's steps: keys, the lookup, drawing ----

  /** A step of main alone, which may take or give back the lock and keeps away from the critical sections above. */
  ghost predicate MainOnly(s: State, s': State) {
    && s'.now == s.now && s'.destroyed == s.destroyed && s'.sh == s.sh && s'.mon == s.mon && s'.coll == s.coll && s'.hist == s.hist
    && s'.main.interval == s.main.interval
    && !Signalling(s'.main.pc) && !AfterStop(s'.main.pc) && !AfterStop(s.main.pc) && !Signalling(s.main.pc)
    && !s.main.pc.MIntLock? && !s.main.pc.MIntSet?
    && (s'.lock == Main <==> MHolds(s'.main.pc)) && (s'.lock == Coll <==> s.lock == Coll)
  }

  lemma MainOnlyKeeps(s: State, s': State)
    requires Inv(s) && MainOnly(s, s')
    ensures Mutex(s') && Control(s') && Wakeup(s') && Timing(s') && Coherent(s') && Coverage(s')
  {
    SameMonitor(s, s');
    SameCoverage(s, s');
  }

  lemma KeyKeepsControl(s: State, key: Key)
    requires Mutex(s) && Control(s) && s.main.pc.MKey?
    ensures Mutex(DoKey(s, key)) && Control(DoKey(s, key))
  {
  }

  lemma KeyKeepsTiming(s: State, key: Key)
    requires Wakeup(s) && Timing(s) && s.main.pc.MKey?
    ensures Wakeup(DoKey(s, key)) && Timing(DoKey(s, key))
  {
  }

  lemma KeyKeepsInv(s: State, key: Key)
    requires Inv(s) && s.main.pc.MKey?
    ensures Inv(DoKey(s, key))
  {
    var s' := DoKey(s, key);
    KeyKeepsControl(s, key);
    KeyKeepsTiming(s, key);
    SameCoverage(s, s');
    AwayKeepsFrame(s, s');
    SameMonitor(s, s');
  }

  lemma LoopKeepsInv(s: State, pc: MPc)
    requires Inv(s) && s.main.pc.MLoop? && (pc.MKey? || pc.MStopLock?)
    ensures Inv(To(s, pc))
  {
    MainOnlyKeeps(s, To(s, pc));
    AwayKeepsFrame(s, To(s, pc));
  }

  lemma HeldFindStays(s: State)
    requires InBounds(s) && (s.main.pc.MFind? || s.main.pc.MCopy?)
    ensures var s' := DoFind(s);
            && s' == s.(main := s.main.(pc := s'.main.pc)) && (s'.main.pc.MCopy? || s'.main.pc.MFindUnlock?)
  {
  }

  lemma FindIsMainOnly(s: State)
    requires Mutex(s) && InBounds(s) && MReady(s) && Finding(s.main.pc)
    ensures MainOnly(s, DoFind(s))
  {
    if s.main.pc.MFind? || s.main.pc.MCopy? {
      HeldFindStays(s);
    }
  }

  /** The current sample is what the front buffer holds below the count. */
  lemma FrontIsCurrent(s: State)
    requires Mutex(s) && Coherent(s) && MHolds(s.main.pc)
    ensures s.sh.generation < |s.hist.samples|
    ensures Holds(s.mon.bufs[s.mon.front], s.mon.count, s.hist.samples[s.sh.generation])
  {
  }

  /** What the lookup finds in the buffer is the answer for the sample that it holds. */
  lemma FoundIsAnswer(buf: seq<Row>, count: nat, rows: seq<Row>, pid: int)
    requires Holds(buf, count, rows)
    ensures forall i: nat :: IsAt(buf, count, pid, i) ==> Answer(rows, pid, [buf[i]])
    ensures (forall i: nat :: !IsAt(buf, count, pid, i)) ==> Answer(rows, pid, [])
  {
    forall i: nat | IsAt(buf, count, pid, i)
      ensures Answer(rows, pid, [buf[i]])
    {
      assert rows[i] == buf[i];
    }
    if forall i: nat :: !IsAt(buf, count, pid, i) {
      forall i | 0 <= i < |rows|
        ensures rows[i].pid != pid
      {
        var n: nat := i;
        assert !IsAt(buf, count, pid, n) && rows[n] == buf[n];
      }
    }
  }

  lemma FindKeepsLookup(s: State)
    requires Mutex(s) && Coherent(s) && Lookup(s) && InBounds(s) && Finding(s.main.pc)
    ensures Lookup(DoFind(s))
  {
    if s.main.pc.MFind? || s.main.pc.MCopy? {
      FrontIsCurrent(s);
      FoundIsAnswer(s.mon.bufs[s.mon.front], s.mon.count, s.hist.samples[s.sh.generation], s.main.pc.pid);
    }
  }

  lemma FindKeepsFrame(s: State)
    requires Frame(s) && InBounds(s) && Finding(s.main.pc)
    ensures Frame(DoFind(s))
  {
  }

  lemma FindKeepsInv(s: State)
    requires Inv(s) && InBounds(s) && MReady(s) && Finding(s.main.pc)
    ensures Inv(DoFind(s))
  {
    FindIsMainOnly(s);
    MainOnlyKeeps(s, DoFind(s));
    FindKeepsLookup(s);
    FindKeepsFrame(s);
  }

  predicate Reading(pc: MPc) { pc.MDrawSys? || pc.MDrawEvents? || pc.MDrawCount? || pc.MDrawRow? }

  lemma ReadingStays(s: State)
    requires InBounds(s) && Reading(s.main.pc)
    ensures var s' := DoDraw(s);
            && s' == s.(main := s'.main) && s'.main.interval == s.main.interval
            && (Reading(s'.main.pc) || s'.main.pc.MDrawUnlock?)
  {
  }

  lemma ReadingIsMainOnly(s: State)
    requires Mutex(s) && InBounds(s) && MReady(s) && Reading(s.main.pc)
    ensures MainOnly(s, DoDraw(s)) && Lookup(DoDraw(s))
  {
    ReadingStays(s);
  }

  lemma DrawIsMainOnly(s: State)
    requires Mutex(s) && InBounds(s) && MReady(s) && AtDraw(s.main.pc)
    ensures MainOnly(s, DoDraw(s)) && Lookup(DoDraw(s))
  {
    if Reading(s.main.pc) {
      ReadingIsMainOnly(s);
    }
  }

  lemma DrawKeepsFrame(s: State)
    requires Mutex(s) && Coherent(s) && Frame(s) && InBounds(s) && AtDraw(s.main.pc)
    ensures Frame(DoDraw(s))
  {
    if MHolds(s.main.pc) {
      FrontIsCurrent(s);
    }
  }

  lemma DrawKeepsInv(s: State)
    requires Inv(s) && InBounds(s) && MReady(s) && AtDraw(s.main.pc)
    ensures Inv(DoDraw(s))
  {
    DrawIsMainOnly(s);
    MainOnlyKeeps(s, DoDraw(s));
    DrawKeepsFrame(s);
  }

  lemma MainKeepsInv(s: State, key: Key)
    requires Inv(s) && InBounds(s) && MReady(s)
    ensures Inv(DoMain(s, key))
  {
    if s.main.pc.MLoop? {
      LoopKeepsInv(s, if s.main.running then MKey else MStopLock);
    } else if s.main.pc.MKey? {
      KeyKeepsInv(s, key);
    } else if Refreshing(s.main.pc) {
      RefreshKeepsInv(s);
    } else if Adjusting(s.main.pc) {
      IntervalKeepsInv(s);
    } else if Finding(s.main.pc) {
      FindKeepsInv(s);
    } else if AtDraw(s.main.pc) {
      DrawKeepsInv(s);
    } else {
      StopKeepsInv(s);
    }
  }

  /** The sections change nothing of the collector but, by a signal, where it is. */
  lemma SectionsWake(s: State)
    ensures DoRefresh(s).coll == s.coll.(pc := DoRefresh(s).coll.pc)
    ensures DoInterval(s).coll == s.coll.(pc := DoInterval(s).coll.pc) && DoInterval(s).hist == s.hist
    ensures DoStop(s).coll == s.coll.(pc := DoStop(s).coll.pc) && DoStop(s).hist == s.hist
  {
  }

  /** What a step that is not the collector's own leaves alone. */
  ghost predicate OtherStep(s: State, s': State) {
    && s'.sh.generation == s.sh.generation && s'.hist.samples == s.hist.samples && s'.hist.mark >= s.hist.mark
    && s'.coll == s.coll.(pc := s'.coll.pc) && (s.sh.stopping ==> s'.sh.stopping)
    && (s'.coll.pc == s.coll.pc || (s.coll.pc.CAsleep? && (s'.coll.pc.CWoken? || s'.coll.pc.CTimedOut?)))
  }

  lemma RefreshMovesMark(s: State)
    requires Coverage(s) && Refreshing(s.main.pc)
    ensures DoRefresh(s).hist.mark >= s.hist.mark
  {
  }

  lemma KeyIsOther(s: State, key: Key)
    ensures OtherStep(s, DoKey(s, key))
  {
  }

  lemma MainIsOther(s: State, key: Key)
    requires Mutex(s) && Coverage(s) && InBounds(s) && MReady(s)
    ensures OtherStep(s, DoMain(s, key))
  {
    SectionsWake(s);
    if s.main.pc.MLoop? {
    } else if s.main.pc.MKey? {
      KeyIsOther(s, key);
    } else if Refreshing(s.main.pc) {
      RefreshIsSection(s);
      RefreshMovesMark(s);
    } else if Adjusting(s.main.pc) {
      IntervalIsSection(s);
    } else if Finding(s.main.pc) {
      FindIsMainOnly(s);
    } else if AtDraw(s.main.pc) {
      DrawIsMainOnly(s);
    } else {
      StopIsSection(s);
    }
  }

  lemma NotTheCollectors(s: State, a: Action)
    requires Mutex(s) && Coverage(s) && Enabled(s, a) && !a.CollStep?
    ensures OtherStep(s, Do(s, a))
  {
    if a.MainStep? {
      MainIsOther(s, a.key);
    } else {
      WorldIsWorldStep(s, a);
    }
  }

  // ---- Every step, every run ----

  /** The clock, a signal to the process, and wakeups that nobody sent. */
  ghost predicate WorldStep(s: State, s': State) {
    && s'.main == s.main.(running := s'.main.running) && s'.now >= s.now
    && s'.sh == s.sh && s'.mon == s.mon && s'.hist == s.hist && s'.lock == s.lock && s'.destroyed == s.destroyed
    && s'.coll == s.coll.(pc := s'.coll.pc)
    && (s'.coll.pc == s.coll.pc
        || (s.coll.pc.CAsleep? && (s'.coll.pc.CWoken? || (s'.coll.pc.CTimedOut? && s.now >= Nanos(s.coll.deadline)))))
  }

  lemma WorldIsWorldStep(s: State, a: Action)
    requires Enabled(s, a) && !a.CollStep? && !a.MainStep?
    ensures WorldStep(s, Do(s, a))
  {
  }

  lemma WorldKeepsControl(s: State, s': State)
    requires Mutex(s) && Control(s) && Wakeup(s) && Timing(s) && WorldStep(s, s')
    ensures Mutex(s') && Control(s') && Wakeup(s') && Timing(s')
  {
  }

  lemma WorldKeepsFrame(s: State, s': State)
    requires Frame(s) && Lookup(s) && WorldStep(s, s')
    ensures Frame(s') && Lookup(s')
  {
  }

  lemma WorldStepKeepsInv(s: State, s': State)
    requires Inv(s) && WorldStep(s, s')
    ensures Inv(s')
  {
    WorldKeepsControl(s, s');
    SameMonitor(s, s');
    SameCoverage(s, s');
    WorldKeepsFrame(s, s');
  }

  lemma WorldKeepsInv(s: State, a: Action)
    requires Inv(s) && Enabled(s, a) && !a.CollStep? && !a.MainStep?
    ensures Inv(Do(s, a))
  {
    WorldIsWorldStep(s, a);
    WorldStepKeepsInv(s, Do(s, a));
  }

  lemma StepKeepsInv(s: State, a: Action)
    requires Inv(s) && Enabled(s, a)
    ensures Inv(Do(s, a))
  {
    match a {
      case CollStep(l) => CollKeepsInv(s, l);
      case MainStep(key) => MainKeepsInv(s, key);
      case _ => WorldKeepsInv(s, a);
    }
  }

  lemma LinkKeepsInv(tr: seq<State>, acts: seq<Action>, n: nat)
    requires Run(tr, acts) && n < |acts| && Inv(tr[n])
    ensures Inv(tr[n + 1])
  {
    assert Linked(tr, acts, n);
    StepKeepsInv(tr[n], acts[n]);
  }

  lemma {:induction false} RunInv(tr: seq<State>, acts: seq<Action>, n: nat)
    requires Run(tr, acts) && n < |tr|
    ensures Inv(tr[n])
  {
    if n == 0 {
      InitialInv(tr[0]);
    } else {
      var before := n - 1;
      RunInv(tr, acts, before);
      LinkKeepsInv(tr, acts, before);
    }
  }
}
