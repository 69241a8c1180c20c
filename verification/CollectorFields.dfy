/**
 The two structures that the protocol updates in place, with the code's assignments in the code's order:
 km_collector with its lock and its condition (src/collector/collector.c), each critical section in one
 piece as the lock makes it, and the main loop's own variables (src/main.c). Each method is tied to the
 steps of the transition system that it takes.
 */
module CollectorFields {
  import opened Collector

  class KmCollector {
    var stopping: bool
    var refreshRequested: bool
    var intervalMs: int
    var generation: nat
    /** The mutex, and whether the collector thread is blocked on the condition. */
    var owner: Owner
    var asleep: bool

    ghost predicate Is(s: State)
      reads this
    {
      Shared(stopping, refreshRequested, intervalMs, generation) == s.sh && owner == s.lock && asleep == s.coll.pc.CAsleep?
    }

    constructor (interval: int)
      ensures forall s: State :: Initial(s) && interval == START_MS ==> Is(s)
    {
      stopping, refreshRequested, intervalMs, generation := false, false, interval, 0;
      owner, asleep := Free, false;
    }

    /** pthread_cond_signal: unblocks the one thread that may be waiting. */
    method Signal()
      modifies this`asleep
      ensures !asleep
    {
      asleep := false;
    }

    method RequestRefresh(ghost s: State)
      requires s.main.pc.MReqLock? && MReady(s) && Is(s)
      modifies this
      ensures Is(DoRefresh(DoRefresh(DoRefresh(DoRefresh(s)))))
      ensures refreshRequested && !asleep && owner == Free
    {
      RefreshRuns(s);
      owner := Main;
      refreshRequested := true;
      Signal();
      owner := Free;
    }

    method SetInterval(ghost s: State, interval: int)
      requires s.main.pc.MIntLock? && MReady(s) && Is(s) && interval == s.main.interval
      modifies this
      ensures Is(DoInterval(DoInterval(DoInterval(DoInterval(s)))))
      ensures intervalMs == interval && !asleep && owner == Free
    {
      IntervalRuns(s);
      owner := Main;
      intervalMs := interval;
      Signal();
      owner := Free;
    }

    /** km_collector_stop, up to the join. */
    method Stop(ghost s: State)
      requires s.main.pc.MStopLock? && MReady(s) && Is(s)
      modifies this
      ensures Is(DoStop(DoStop(DoStop(DoStop(s)))))
      ensures stopping && !asleep && owner == Free
    {
      StopRuns(s);
      owner := Main;
      stopping := true;
      Signal();
      owner := Free;
    }

    /** The collector's test, and the wait, which gives up the lock and blocks in one step. */
    method WaitUnlessAsked(ghost s: State)
      requires s.coll.pc.CTest? && CReady(s) && Is(s)
      modifies this
      ensures Is(DoWait(s))
      ensures asleep <==> old(!stopping && !refreshRequested)
      ensures asleep <==> owner == Free
    {
      if !stopping && !refreshRequested {
        owner := Free;
        asleep := true;
      }
    }

    /** Past the test: the request is taken and the lock given back for the sweep. */
    method BeginSweep(ghost s: State)
      requires s.coll.pc.CClear? && CReady(s) && Is(s)
      modifies this
      ensures Is(DoWait(DoWait(s))) && DoWait(DoWait(s)).coll.byRequest == old(refreshRequested)
    {
      refreshRequested := false;
      owner := Free;
    }

    method CountPublish(ghost s: State)
      requires s.coll.pc.CBump? && CReady(s) && Is(s)
      modifies this`generation
      ensures Is(DoPublish(s))
    {
      generation := generation + 1;
    }
  }

  /** What the four steps of each critical section come to. */
  lemma RefreshRuns(s: State)
    requires s.main.pc.MReqLock?
    ensures var t := DoRefresh(DoRefresh(DoRefresh(DoRefresh(s))));
            t.sh == s.sh.(refresh := true) && t.lock == Free && t.coll.pc == if s.coll.pc.CAsleep? then CWoken else s.coll.pc
  {
    var two := DoRefresh(DoRefresh(s));
    assert two.main.pc.MReqSignal? && two.coll == s.coll && two.sh == s.sh.(refresh := true);
  }

  lemma IntervalRuns(s: State)
    requires s.main.pc.MIntLock?
    ensures var t := DoInterval(DoInterval(DoInterval(DoInterval(s))));
            t.sh == s.sh.(interval := s.main.interval) && t.lock == Free && t.coll.pc == if s.coll.pc.CAsleep? then CWoken else s.coll.pc
  {
    var two := DoInterval(DoInterval(s));
    assert two.main.pc.MIntSignal? && two.coll == s.coll && two.sh == s.sh.(interval := s.main.interval);
  }

  lemma StopRuns(s: State)
    requires s.main.pc.MStopLock?
    ensures var t := DoStop(DoStop(DoStop(DoStop(s))));
            t.sh == s.sh.(stopping := true) && t.lock == Free && t.coll.pc == if s.coll.pc.CAsleep? then CWoken else s.coll.pc
  {
    var two := DoStop(DoStop(s));
    assert two.main.pc.MStopSignal? && two.coll == s.coll && two.sh == s.sh.(stopping := true);
  }

  /** The main loop's variables that no other thread sees. */
  class MainLoop {
    var running: bool
    var refreshInterval: int
    var drawnGeneration: nat
    var needsRedraw: bool

    ghost predicate Is(m: MThread)
      reads this
    {
      running == m.running && refreshInterval == m.interval && drawnGeneration == m.drawn && needsRedraw == m.needsRedraw
    }

    constructor ()
      ensures forall s: State :: Initial(s) ==> Is(s.main)
      ensures running && refreshInterval == 2000 && drawnGeneration == 0 && needsRedraw
    {
      running, refreshInterval, drawnGeneration, needsRedraw := true, START_MS, 0, true;
    }

    /** One answer of the keyboard: the interval stays within its limits whatever the keys. */
    method HandleKey(ghost s: State, key: Key)
      requires s.main.pc.MKey? && Enabled(s, MainStep(key)) && Is(s.main)
      modifies this
      ensures Is(Do(s, MainStep(key)).main)
      ensures MIN_MS <= old(refreshInterval) <= MAX_MS ==> MIN_MS <= refreshInterval <= MAX_MS
    {
      var handled := true;
      match key {
        case NoKey => handled := false;
        case Quit => running := false;
        case Slower =>
          refreshInterval := refreshInterval + 500;
          if refreshInterval > MAX_MS {
            refreshInterval := MAX_MS;
          }
        case Faster =>
          refreshInterval := refreshInterval - 500;
          if refreshInterval < MIN_MS {
            refreshInterval := MIN_MS;
          }
        case Refresh =>
        case SignalProcess(_) =>
        case OtherKey(h) => handled := h;
      }
      if handled {
        needsRedraw := true;
      }
    }

    /** Whether to draw: always when the generation moved since the last frame. */
    method LookAtGeneration(ghost s: State, generation: nat) returns (draw: bool)
      requires s.main.pc.MGen? && Enabled(s, MainStep(NoKey)) && Is(s.main) && generation == s.sh.generation
      modifies this
      ensures Is(Do(s, MainStep(NoKey)).main)
      ensures draw <==> Do(s, MainStep(NoKey)).main.pc.MDrawSys?
      ensures drawnGeneration == generation && (generation != old(drawnGeneration) ==> draw)
    {
      if generation != drawnGeneration {
        drawnGeneration := generation;
        needsRedraw := true;
      }
      draw := needsRedraw;
    }
  }
}
