/**
 The main loop over every run: what a key has brought about when the loop is back at its head, and how the loop and
 both threads come to an end after a Quit or an interrupt, and only then.
 */
module CollectorLoop {
  import opened Collector
  import opened CollectorInvariant
  import opened CollectorProperties

  // ---- The end of the loop ----

  predicate OutOfLoop(pc: MPc) { pc.MStopLock? || pc.MStopSet? || AfterStop(pc) }

  /** How many steps main has still to take once it is not to run any longer. */
  function MainLeft(m: MThread): nat {
    match m.pc
    case MKey => 20
    case MFindLock(_) => 19
    case MFind(_) => 18
    case MCopy(_, _, _) => 17
    case MFindUnlock(_, _) => 16
    case MConfirm(_, _) => 15
    case MReqLock | MIntLock => 18
    case MReqSet | MIntSet => 17
    case MReqSignal | MIntSignal => 16
    case MReqUnlock | MIntUnlock => 15
    case MDrawLock => 14
    case MGen => 13
    case MDrawSys => 12
    case MDrawEvents => 11
    case MDrawCount => 10
    case MDrawRow(i) => 9 + if i < m.view.count then m.view.count - i else 0
    case MDrawUnlock => 8
    case MLoop => 7
    case MStopLock => 6
    case MStopSet => 5
    case MStopSignal => 4
    case MStopUnlock => 3
    case MJoin => 2
    case MDestroy => 1
    case MDone => 0
  }

  /** 1 while main may come to the row count of a frame, in this turn of the loop. */
  function FramesLeft(pc: MPc): nat {
    if OutOfLoop(pc) || pc.MLoop? || pc.MDrawUnlock? || pc.MDrawRow? then 0 else 1
  }

  /** Main reads the row count of a frame, and will then read that many rows. */
  ghost predicate BeginsFrame(s: State, a: Action) { a.MainStep? && s.main.pc.MDrawCount? }

  ghost predicate Nearer(s: State, a: Action, s': State) {
    && !s'.main.running && (s'.main.pc.MKey? ==> s'.main == s.main && !a.MainStep?)
    && (if a.MainStep? then 1 else 0) + MainLeft(s'.main) <= MainLeft(s.main) + (if BeginsFrame(s, a) then s.mon.count else 0)
    && (if BeginsFrame(s, a) then 1 else 0) + FramesLeft(s'.main.pc) <= FramesLeft(s.main.pc)
  }

  /** A step of main within the sections that have no frame in them. */
  ghost predicate Descends(s: State, s': State) {
    && s'.main.running == s.main.running && !s'.main.pc.MKey?
    && MainLeft(s'.main) < MainLeft(s.main) && FramesLeft(s'.main.pc) <= FramesLeft(s.main.pc)
    && OutOfLoop(s.main.pc) == OutOfLoop(s'.main.pc) && (AfterStop(s'.main.pc) ==> OutOfLoop(s.main.pc))
  }

  lemma RefreshDescends(s: State)
    requires Refreshing(s.main.pc)
    ensures Descends(s, DoRefresh(s))
  {
  }

  lemma IntervalDescends(s: State)
    requires Adjusting(s.main.pc)
    ensures Descends(s, DoInterval(s))
  {
  }

  lemma StopDescends(s: State)
    requires Ending(s.main.pc)
    ensures Descends(s, DoStop(s))
  {
  }

  lemma FindDescends(s: State)
    requires InBounds(s) && Finding(s.main.pc)
    ensures Descends(s, DoFind(s))
  {
    if s.main.pc.MFind? || s.main.pc.MCopy? {
      HeldFindStays(s);
    }
  }

  /** A step of the frame: the same but where the row count is read. */
  ghost predicate Draws(s: State, s': State) {
    && s'.main.running == s.main.running && !s'.main.pc.MKey? && !OutOfLoop(s'.main.pc)
    && MainLeft(s'.main) < MainLeft(s.main) + (if s.main.pc.MDrawCount? then s.mon.count else 0)
    && FramesLeft(s'.main.pc) + (if s.main.pc.MDrawCount? then 1 else 0) <= FramesLeft(s.main.pc)
  }

  lemma ReadingDescends(s: State)
    requires InBounds(s) && Reading(s.main.pc)
    ensures Draws(s, DoDraw(s))
  {
  }

  lemma DrawDescends(s: State)
    requires InBounds(s) && AtDraw(s.main.pc)
    ensures Draws(s, DoDraw(s))
  {
    if Reading(s.main.pc) {
      ReadingDescends(s);
    }
  }

  lemma KeyDescends(s: State, key: Key)
    requires s.main.pc.MKey?
    ensures var s' := DoKey(s, key);
            && !s'.main.pc.MKey? && !OutOfLoop(s'.main.pc) && s'.main.running == (s.main.running && !key.Quit?)
            && MainLeft(s'.main) < MainLeft(s.main) && FramesLeft(s'.main.pc) <= FramesLeft(s.main.pc)
  {
  }

  lemma LeavingSteps(s: State, key: Key)
    requires InBounds(s) && MReady(s) && !s.main.running
    ensures Nearer(s, MainStep(key), DoMain(s, key))
  {
    if s.main.pc.MLoop? {
    } else if s.main.pc.MKey? {
      KeyDescends(s, key);
    } else if Refreshing(s.main.pc) {
      RefreshDescends(s);
    } else if Adjusting(s.main.pc) {
      IntervalDescends(s);
    } else if Finding(s.main.pc) {
      FindDescends(s);
    } else if AtDraw(s.main.pc) {
      DrawDescends(s);
    } else {
      StopDescends(s);
    }
  }

  lemma OthersLeaveMain(s: State, a: Action)
    requires Enabled(s, a) && !a.MainStep?
    ensures Do(s, a).main == s.main.(running := s.main.running && !a.Interrupt?)
  {
    if a.CollStep? {
      CollKeepsMain(s, a.listing);
    }
  }

  lemma StepsNearer(s: State, a: Action)
    requires Enabled(s, a) && !s.main.running
    ensures Nearer(s, a, Do(s, a))
  {
    if a.MainStep? {
      LeavingSteps(s, a.key);
    } else {
      OthersLeaveMain(s, a);
    }
  }

  function MainSteps(acts: seq<Action>, i: nat, j: nat): nat
    requires i <= j <= |acts|
  {
    if i == j then 0 else MainSteps(acts, i, j - 1) + if acts[j - 1].MainStep? then 1 else 0
  }

  /** The frames whose row count main reads in steps i to j - 1, and their rows. */
  ghost function Frames(tr: seq<State>, acts: seq<Action>, i: nat, j: nat): nat
    requires i <= j <= |acts| <= |tr|
  {
    if i == j then 0 else Frames(tr, acts, i, j - 1) + if BeginsFrame(tr[j - 1], acts[j - 1]) then 1 else 0
  }

  ghost function FrameRows(tr: seq<State>, acts: seq<Action>, i: nat, j: nat): nat
    requires i <= j <= |acts| <= |tr|
  {
    if i == j then 0 else FrameRows(tr, acts, i, j - 1) + if BeginsFrame(tr[j - 1], acts[j - 1]) then tr[j - 1].mon.count else 0
  }

  lemma LinkIsNearer(tr: seq<State>, acts: seq<Action>, k: nat)
    requires Run(tr, acts) && k < |acts| && !tr[k].main.running
    ensures Nearer(tr[k], acts[k], tr[k + 1])
  {
    var s, a, s' := LinkIsStep(tr, acts, k);
    StepsNearer(s, a);
  }

  /**
   From the moment `running` is false main reads no key any more, and its own steps are bounded: at most those it has
   left, and one for each row of a frame it begins; and it begins one frame at most.
   */
  lemma {:induction false} LoopEnds(tr: seq<State>, acts: seq<Action>, i: nat, j: nat)
    requires Run(tr, acts) && i <= j < |tr| && !tr[i].main.running
    ensures !tr[j].main.running && (tr[j].main.pc.MKey? ==> tr[i].main.pc.MKey? && MainSteps(acts, i, j) == 0)
    ensures MainSteps(acts, i, j) + MainLeft(tr[j].main) <= MainLeft(tr[i].main) + FrameRows(tr, acts, i, j)
    ensures Frames(tr, acts, i, j) + FramesLeft(tr[j].main.pc) <= FramesLeft(tr[i].main.pc) <= 1
  {
    if i < j {
      var k := j - 1;
      LoopEnds(tr, acts, i, k);
      LinkIsNearer(tr, acts, k);
    }
  }

  /** The steps it has left are at most 20, and one for each row of a frame it is at. */
  lemma AtMostMainLeft(m: MThread)
    ensures MainLeft(m) <= 20 + if m.pc.MDrawRow? && m.pc.i < m.view.count then m.view.count - m.pc.i else 0
  {
  }

  // ---- Who asks for the end ----

  /** The user quits, or a signal interrupts. */
  ghost predicate AsksToStop(tr: seq<State>, acts: seq<Action>, k: nat) {
    k < |acts| && k < |tr| && (acts[k].Interrupt? || (acts[k] == MainStep(Quit) && tr[k].main.pc.MKey?))
  }

  lemma AskedIsHeard(tr: seq<State>, acts: seq<Action>, k: nat)
    requires Run(tr, acts) && AsksToStop(tr, acts, k)
    ensures !tr[k + 1].main.running && !OutOfLoop(tr[k].main.pc)
  {
    LinkLeaves(tr, acts, k);
    InLoopWhileRunning(tr, acts, k);
    assert Linked(tr, acts, k);
  }

  /** How a step moves main with regard to the end of its loop. */
  ghost predicate Leaves(s: State, a: Action, s': State) {
    && (s'.main.running == (s.main.running && !a.Interrupt? && !(a == MainStep(Quit) && s.main.pc.MKey?)))
    && (OutOfLoop(s.main.pc) ==> OutOfLoop(s'.main.pc))
    && (OutOfLoop(s'.main.pc) ==> OutOfLoop(s.main.pc) || (s.main.pc.MLoop? && !s.main.running))
    && (AfterStop(s'.main.pc) && !Signalling(s'.main.pc) ==>
          (AfterStop(s.main.pc) && !Signalling(s.main.pc)) || (a.MainStep? && s.main.pc.MStopSignal?))
  }

  lemma SectionLeaves(s: State, key: Key, s': State)
    requires Descends(s, s') && !s.main.pc.MKey? && !s.main.pc.MLoop? && !OutOfLoop(s.main.pc)
    ensures Leaves(s, MainStep(key), s')
  {
  }

  lemma StopLeaves(s: State, key: Key)
    requires Ending(s.main.pc)
    ensures Leaves(s, MainStep(key), DoStop(s))
  {
  }

  lemma DrawLeaves(s: State, key: Key)
    requires InBounds(s) && AtDraw(s.main.pc)
    ensures Leaves(s, MainStep(key), DoDraw(s))
  {
    DrawDescends(s);
  }

  lemma KeyLeaves(s: State, key: Key)
    requires s.main.pc.MKey?
    ensures Leaves(s, MainStep(key), DoKey(s, key))
  {
  }

  lemma MainLeaves(s: State, key: Key)
    requires InBounds(s) && MReady(s)
    ensures Leaves(s, MainStep(key), DoMain(s, key))
  {
    if s.main.pc.MLoop? {
    } else if s.main.pc.MKey? {
      KeyLeaves(s, key);
    } else if Refreshing(s.main.pc) {
      RefreshDescends(s);
      SectionLeaves(s, key, DoRefresh(s));
    } else if Adjusting(s.main.pc) {
      IntervalDescends(s);
      SectionLeaves(s, key, DoInterval(s));
    } else if Finding(s.main.pc) {
      FindDescends(s);
      SectionLeaves(s, key, DoFind(s));
    } else if AtDraw(s.main.pc) {
      DrawLeaves(s, key);
    } else {
      StopLeaves(s, key);
    }
  }

  lemma LinkLeaves(tr: seq<State>, acts: seq<Action>, k: nat)
    requires Run(tr, acts) && k < |acts|
    ensures Leaves(tr[k], acts[k], tr[k + 1])
  {
    var s, a, s' := LinkIsStep(tr, acts, k);
    if a.MainStep? {
      MainLeaves(s, a.key);
    } else {
      OthersLeaveMain(s, a);
    }
  }

  lemma {:induction false} InLoopWhileRunning(tr: seq<State>, acts: seq<Action>, n: nat)
    requires Run(tr, acts) && n < |tr|
    ensures OutOfLoop(tr[n].main.pc) ==> !tr[n].main.running
  {
    if n > 0 {
      var k := n - 1;
      InLoopWhileRunning(tr, acts, k);
      LinkLeaves(tr, acts, k);
    }
  }

  /** Main stops the collector only if it was asked to stop. */
  lemma {:induction false} StopsOnlyIfAsked(tr: seq<State>, acts: seq<Action>, n: nat) returns (k: nat)
    requires Run(tr, acts) && n < |tr| && (!tr[n].main.running || OutOfLoop(tr[n].main.pc))
    ensures k < n && AsksToStop(tr, acts, k)
  {
    InLoopWhileRunning(tr, acts, n);
    if n > 0 {
      k := n - 1;
      LinkLeaves(tr, acts, k);
      if !tr[k].main.running {
        k := StopsOnlyIfAsked(tr, acts, k);
      }
    }
  }

  /** When main signalled the stop. */
  lemma {:induction false} StopWasSignalled(tr: seq<State>, acts: seq<Action>, n: nat) returns (m: nat)
    requires Run(tr, acts) && n < |tr| && AfterStop(tr[n].main.pc) && !Signalling(tr[n].main.pc)
    ensures m < n && acts[m].MainStep? && tr[m].main.pc.MStopSignal?
    ensures AfterStop(tr[m + 1].main.pc) && !Signalling(tr[m + 1].main.pc)
  {
    if n > 0 {
      m := n - 1;
      LinkLeaves(tr, acts, m);
      if AfterStop(tr[m].main.pc) && !Signalling(tr[m].main.pc) {
        m := StopWasSignalled(tr, acts, m);
      }
    }
  }

  lemma {:induction false} StaysOut(tr: seq<State>, acts: seq<Action>, i: nat, j: nat)
    requires Run(tr, acts) && i <= j < |tr| && OutOfLoop(tr[i].main.pc)
    ensures OutOfLoop(tr[j].main.pc)
  {
    if i < j {
      var k := j - 1;
      StaysOut(tr, acts, i, k);
      LinkLeaves(tr, acts, k);
    }
  }

  /** Neither thread can step: only the clock, an interrupt, or a wakeup of the collector could go on. */
  ghost predicate Over(s: State) {
    (forall key :: !Enabled(s, MainStep(key))) && (forall listing :: !Enabled(s, CollStep(listing)))
  }

  lemma OverIsDone(tr: seq<State>, acts: seq<Action>, n: nat)
    requires Run(tr, acts) && n < |tr| && Over(tr[n])
    ensures tr[n].main.pc == MDone && tr[n].coll.pc == CExited && tr[n].lock == Free && tr[n].destroyed && tr[n].sh.stopping
  {
    var s, key, l := tr[n], NoKey, [];
    assert !Enabled(s, MainStep(key)) && !Enabled(s, CollStep(l));
    if s.main.pc != MDone {
      NeverStuck(tr, acts, n, key, l);
    }
    RunInv(tr, acts, n);
  }

  /**
   Shutdown is complete: a run in which somebody asked to stop, and in which neither thread can go on, has main at its
   end, the collector exited, and the lock free and destroyed. Main took a bounded number of steps since it was asked,
   and the collector a bounded number since it was signalled.
   */
  lemma ShutdownIsComplete(tr: seq<State>, acts: seq<Action>, k: nat) returns (m: nat)
    requires Run(tr, acts) && AsksToStop(tr, acts, k) && Over(tr[|acts|])
    ensures var last := tr[|acts|];
            last.main.pc == MDone && last.coll.pc == CExited && last.lock == Free && last.destroyed && last.sh.stopping
    ensures MainSteps(acts, k + 1, |acts|) <= MainLeft(tr[k + 1].main) + FrameRows(tr, acts, k + 1, |acts|)
    ensures Frames(tr, acts, k + 1, |acts|) <= 1
    ensures k < m < |acts| && acts[m].MainStep? && tr[m].main.pc.MStopSignal?
    ensures |tr[m + 1].hist.samples| <= |tr[|acts|].hist.samples|
    ensures CollSteps(acts[m + 1..|acts|]) <= Distance(tr[m + 1].coll.pc) + Rows(tr[|acts|].hist.samples[|tr[m + 1].hist.samples|..])
  {
    var n := |acts|;
    OverIsDone(tr, acts, n);
    AskedIsHeard(tr, acts, k);
    LoopEnds(tr, acts, k + 1, n);
    m := StopWasSignalled(tr, acts, n);
    if m < k {
      StaysOut(tr, acts, m, k);
    }
    JoinIsBounded(tr, acts, m + 1, n);
  }

  // ---- What a key has brought about when the loop is back at its head ----

  predicate Handled(key: Key) { !key.NoKey? && (key.OtherKey? ==> key.handled) }

  /** From the key at step k on, main has not been back at the head of its loop before step n. */
  ghost predicate InTurn(tr: seq<State>, acts: seq<Action>, k: nat, n: nat, key: Key) {
    && Run(tr, acts) && k < n < |tr| && acts[k] == MainStep(key) && tr[k].main.pc.MKey?
    && forall m :: k < m < n ==> !tr[m].main.pc.MLoop?
  }

  ghost predicate DrewFrame(tr: seq<State>, k: nat, n: nat)
    requires n <= |tr|
  {
    exists m :: k < m < n && tr[m].main.pc.MDrawSys?
  }

  ghost predicate LookedUp(tr: seq<State>, k: nat, n: nat, pid: int)
    requires n <= |tr|
  {
    exists m :: k < m < n && tr[m].main.pc.MFindUnlock? && tr[m].main.pc.pid == pid
  }

  function NewInterval(key: Key, ms: int): int { if key.Slower? then Slow(ms) else if key.Faster? then Fast(ms) else ms }

  predicate ToRequest(pc: MPc) { pc.MReqLock? || pc.MReqSet? }

  predicate BeforeFrame(pc: MPc) { Refreshing(pc) || Adjusting(pc) || Finding(pc) || pc.MDrawLock? || pc.MGen? || pc.MDrawSys? }

  /** On the way through a turn: the interval and the request so far, and where in the turn main is. */
  ghost predicate Midway(start: State, key: Key, s: State) {
    && !s.main.pc.MKey? && !OutOfLoop(s.main.pc)
    && s.main.interval == NewInterval(key, start.main.interval)
    && s.hist.requests == start.hist.requests + (if key.Refresh? && !ToRequest(s.main.pc) then 1 else 0)
    && (Refreshing(s.main.pc) ==> key.Refresh?)
  }

  /** What is still to be done, if it was not done on the way. */
  ghost predicate Pending(key: Key, s: State, drew: bool, found: bool) {
    && (Handled(key) && !drew ==> s.main.needsRedraw && BeforeFrame(s.main.pc))
    && (key.SignalProcess? && !found ==> Looking(s.main.pc, key.pid))
  }

  predicate Looking(pc: MPc, pid: int) {
    match pc
    case MFindLock(p) => p == pid
    case MFind(p) => p == pid
    case MCopy(p, _, _) => p == pid
    case MFindUnlock(p, _) => p == pid
    case _ => false
  }

  lemma KeyStarts(s: State, key: Key)
    requires s.main.pc.MKey?
    ensures Midway(s, key, DoKey(s, key)) && Pending(key, DoKey(s, key), false, false)
  {
  }

  /** One step within a turn. */
  ghost predicate Carries(s: State, s': State) {
    && !s'.main.pc.MKey? && !OutOfLoop(s'.main.pc) && s'.main.interval == s.main.interval
    && s'.hist.requests == s.hist.requests + (if s.main.pc.MReqSet? then 1 else 0)
    && (Refreshing(s'.main.pc) ==> Refreshing(s.main.pc)) && (ToRequest(s'.main.pc) <==> ToRequest(s.main.pc) && !s.main.pc.MReqSet?)
  }

  /** It keeps what is pending, unless it is the step from the frame or the lookup. */
  ghost predicate KeepsPending(s: State, s': State) {
    && (s.main.needsRedraw && BeforeFrame(s.main.pc) && !s.main.pc.MDrawSys? ==> s'.main.needsRedraw && BeforeFrame(s'.main.pc))
    && forall pid :: Looking(s.main.pc, pid) && !s.main.pc.MFindUnlock? ==> Looking(s'.main.pc, pid)
  }

  lemma RefreshCarries(s: State)
    requires Refreshing(s.main.pc)
    ensures Carries(s, DoRefresh(s)) && KeepsPending(s, DoRefresh(s))
  {
  }

  lemma IntervalCarries(s: State)
    requires Adjusting(s.main.pc)
    ensures Carries(s, DoInterval(s)) && KeepsPending(s, DoInterval(s))
  {
  }

  lemma FindCarries(s: State)
    requires InBounds(s) && Finding(s.main.pc)
    ensures Carries(s, DoFind(s)) && KeepsPending(s, DoFind(s))
  {
    if s.main.pc.MFind? || s.main.pc.MCopy? {
      HeldFindStays(s);
    }
  }

  lemma DrawCarries(s: State)
    requires InBounds(s) && AtDraw(s.main.pc)
    ensures Carries(s, DoDraw(s)) && KeepsPending(s, DoDraw(s))
  {
  }

  lemma CollKeepsRequests(s: State, l: seq<Row>)
    requires InBounds(s)
    ensures DoColl(s, l).hist.requests == s.hist.requests
  {
  }

  lemma OthersCarry(s: State, a: Action)
    requires Enabled(s, a) && !a.MainStep?
    ensures Do(s, a).main == s.main.(running := Do(s, a).main.running) && Do(s, a).hist.requests == s.hist.requests
  {
    OthersLeaveMain(s, a);
    if a.CollStep? {
      CollKeepsRequests(s, a.listing);
    }
  }

  /** A step of a turn that is not over: main's own, or one that leaves main where it is. */
  lemma TurnCarries(s: State, a: Action)
    requires Enabled(s, a) && !s.main.pc.MKey? && !s.main.pc.MLoop? && !OutOfLoop(s.main.pc)
    ensures var s' := Do(s, a);
            if a.MainStep? then Carries(s, s') && KeepsPending(s, s')
            else s'.main == s.main.(running := s'.main.running) && s'.hist.requests == s.hist.requests
  {
    if !a.MainStep? {
      OthersCarry(s, a);
    } else if Refreshing(s.main.pc) {
      RefreshCarries(s);
    } else if Adjusting(s.main.pc) {
      IntervalCarries(s);
    } else if Finding(s.main.pc) {
      FindCarries(s);
    } else {
      DrawCarries(s);
    }
  }

  lemma CarriedOn(start: State, key: Key, s: State, s': State, drew: bool, found: bool)
    requires Midway(start, key, s) && Pending(key, s, drew, found) && Carries(s, s') && KeepsPending(s, s')
    ensures Midway(start, key, s')
    ensures Pending(key, s', drew || s.main.pc.MDrawSys?, found || (key.SignalProcess? && s.main.pc.MFindUnlock? && s.main.pc.pid == key.pid))
  {
  }

  lemma {:induction false} TurnGoesOn(tr: seq<State>, acts: seq<Action>, k: nat, n: nat, key: Key)
    requires InTurn(tr, acts, k, n, key)
    ensures Midway(tr[k], key, tr[n])
    ensures Pending(key, tr[n], DrewFrame(tr, k, n), key.SignalProcess? && LookedUp(tr, k, n, key.pid))
  {
    var m := n - 1;
    var s, a, s' := LinkIsStep(tr, acts, m);
    if m == k {
      KeyStarts(s, key);
    } else {
      TurnGoesOn(tr, acts, k, m, key);
      TurnCarries(s, a);
      SeenOnTheWay(tr, k, m, n, key);
      if a.MainStep? {
        CarriedOn(tr[k], key, s, s', DrewFrame(tr, k, m), key.SignalProcess? && LookedUp(tr, k, m, key.pid));
      }
    }
  }

  lemma SeenOnTheWay(tr: seq<State>, k: nat, m: nat, n: nat, key: Key)
    requires k < m < n < |tr| && n == m + 1
    ensures DrewFrame(tr, k, m) || tr[m].main.pc.MDrawSys? ==> DrewFrame(tr, k, n)
    ensures key.SignalProcess? && (LookedUp(tr, k, m, key.pid) || (tr[m].main.pc.MFindUnlock? && tr[m].main.pc.pid == key.pid))
        ==> LookedUp(tr, k, n, key.pid)
  {
  }

  // ---- A frame is drawn only if there is something new ----

  predicate EarlyInTurn(pc: MPc) { Refreshing(pc) || Adjusting(pc) || Finding(pc) || pc.MDrawLock? || pc.MGen? }

  predicate AtFrame(pc: MPc) { pc.MDrawSys? || Drawing(pc) }

  /** There is a reason for a frame: a key was handled, there was none yet, or there is another generation to draw. */
  ghost predicate Due(start: MThread, key: Key, m: MThread) { Handled(key) || start.needsRedraw || m.drawn != start.drawn }

  ghost predicate Caused(start: MThread, key: Key, m: MThread) {
    && !m.pc.MKey?
    && (EarlyInTurn(m.pc) ==> m.drawn == start.drawn && (m.needsRedraw ==> Due(start, key, m)))
    && (AtFrame(m.pc) ==> Due(start, key, m))
  }

  /** In a turn nothing but the look at the generation changes the generation drawn. */
  ghost predicate CarriesCause(m: MThread, m': MThread) {
    && (EarlyInTurn(m'.pc) ==> EarlyInTurn(m.pc) && m'.drawn == m.drawn && m'.needsRedraw == m.needsRedraw)
    && (AtFrame(m'.pc) ==> AtFrame(m.pc) || (EarlyInTurn(m.pc) && (m.needsRedraw || m'.drawn != m.drawn)))
    && (!EarlyInTurn(m.pc) ==> m'.drawn == m.drawn)
    && (m'.pc.MDrawUnlock? ==> !m'.needsRedraw) && (m'.pc.MLoop? ==> m.pc.MDrawUnlock? && m'.needsRedraw == m.needsRedraw)
    && !m'.pc.MKey?
  }

  lemma SectionsCarryCause(s: State)
    ensures Refreshing(s.main.pc) ==> CarriesCause(s.main, DoRefresh(s).main)
    ensures Adjusting(s.main.pc) ==> CarriesCause(s.main, DoInterval(s).main)
  {
  }

  lemma FindCarriesCause(s: State)
    requires InBounds(s) && Finding(s.main.pc)
    ensures CarriesCause(s.main, DoFind(s).main)
  {
    if s.main.pc.MFind? || s.main.pc.MCopy? {
      HeldFindStays(s);
    }
  }

  lemma DrawCarriesCause(s: State)
    requires InBounds(s) && AtDraw(s.main.pc)
    ensures CarriesCause(s.main, DoDraw(s).main)
  {
  }

  lemma TurnCarriesCause(s: State, key: Key)
    requires InBounds(s) && MReady(s) && !s.main.pc.MKey? && !s.main.pc.MLoop? && !OutOfLoop(s.main.pc)
    ensures CarriesCause(s.main, DoMain(s, key).main)
  {
    if Refreshing(s.main.pc) || Adjusting(s.main.pc) {
      SectionsCarryCause(s);
    } else if Finding(s.main.pc) {
      FindCarriesCause(s);
    } else {
      DrawCarriesCause(s);
    }
  }

  lemma KeyStartsCause(s: State, key: Key)
    requires s.main.pc.MKey?
    ensures Caused(s.main, key, DoKey(s, key).main) && !AtFrame(DoKey(s, key).main.pc)
  {
  }

  lemma {:induction false} FrameHasCause(tr: seq<State>, acts: seq<Action>, k: nat, n: nat, key: Key)
    requires InTurn(tr, acts, k, n, key)
    ensures Caused(tr[k].main, key, tr[n].main) && (DrewFrame(tr, k, n) ==> Due(tr[k].main, key, tr[n].main))
    ensures DrewFrame(tr, k, n) ==> !EarlyInTurn(tr[n].main.pc)
  {
    var m := n - 1;
    var s, a, s' := LinkIsStep(tr, acts, m);
    if m == k {
      KeyStartsCause(s, key);
    } else {
      FrameHasCause(tr, acts, k, m, key);
      TurnGoesOn(tr, acts, k, m, key);
      FrameBefore(tr, k, m, n);
      if a.MainStep? {
        TurnCarriesCause(s, a.key);
      } else {
        OthersLeaveMain(s, a);
      }
    }
  }

  lemma FrameBefore(tr: seq<State>, k: nat, m: nat, n: nat)
    requires k < m < n < |tr| && n == m + 1
    ensures DrewFrame(tr, k, n) ==> DrewFrame(tr, k, m) || tr[m].main.pc.MDrawSys?
  {
  }

  /** With a frame on the screen, nothing waits to be drawn when the loop is at its head. */
  ghost predicate Settled(m: MThread) {
    && (m.pc.MDrawUnlock? ==> !m.needsRedraw)
    && ((m.pc.MLoop? || m.pc.MKey?) && m.needsRedraw ==> m.view.gen == -1)
  }

  lemma StepSettles(s: State, a: Action)
    requires Enabled(s, a) && Settled(s.main)
    ensures Settled(Do(s, a).main)
  {
    if !a.MainStep? {
      OthersLeaveMain(s, a);
    } else if s.main.pc.MKey? {
      KeyStartsCause(s, a.key);
      KeyDescends(s, a.key);
    } else if OutOfLoop(s.main.pc) {
      StopDescends(s);
    } else if !s.main.pc.MLoop? {
      TurnCarriesCause(s, a.key);
    }
  }

  lemma {:induction false} RunIsSettled(tr: seq<State>, acts: seq<Action>, n: nat)
    requires Run(tr, acts) && n < |tr|
    ensures Settled(tr[n].main)
  {
    if n > 0 {
      var k := n - 1;
      RunIsSettled(tr, acts, k);
      var s, a, s' := LinkIsStep(tr, acts, k);
      StepSettles(s, a);
    }
  }

  /**
   When the loop is back at its head after a key, what the key asks for has happened: Slower has not lowered the
   interval and has raised it by 500 ms unless it ends at 10000, Faster the reverse down to 500, and the collector has
   the new interval; Refresh has made one request, and no other key has; a process to be signalled has been looked up;
   and a key that was handled has given a frame. There is no other frame but for another generation, or the first.
   */
  lemma KeyIsServed(tr: seq<State>, acts: seq<Action>, k: nat, n: nat, key: Key)
    requires InTurn(tr, acts, k, n, key) && tr[n].main.pc.MLoop?
    ensures var was, now := tr[k].main.interval, tr[n].main.interval;
            && tr[n].sh.interval == now && 500 <= now <= 10000
            && (key.Slower? ==> now >= was && (now == was + 500 || (now == 10000 && was + 500 > 10000)))
            && (key.Faster? ==> now <= was && (now == was - 500 || (now == 500 && was - 500 < 500)))
            && (!key.Slower? && !key.Faster? ==> now == was)
    ensures tr[n].hist.requests == tr[k].hist.requests + if key.Refresh? then 1 else 0
    ensures key.SignalProcess? ==> LookedUp(tr, k, n, key.pid)
    ensures Handled(key) ==> DrewFrame(tr, k, n)
    ensures DrewFrame(tr, k, n) ==> Handled(key) || tr[n].main.drawn != tr[k].main.drawn || tr[k].main.view.gen == -1
  {
    TurnGoesOn(tr, acts, k, n, key);
    FrameHasCause(tr, acts, k, n, key);
    RunIsSettled(tr, acts, k);
    RunInv(tr, acts, k);
    RunInv(tr, acts, n);
  }
}
