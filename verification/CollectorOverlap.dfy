/**
 The one field that the lock does not protect: a run that ends with the drawing code about to read
 last_scan_ms under the lock and the sweep about to write it without.
 */
module CollectorOverlap {
  import opened Clock
  import opened Collector
  import opened CollectorProperties

  lemma OneMoreStep(tr: seq<State>, acts: seq<Action>, a: Action) returns (tr': seq<State>, acts': seq<Action>)
    requires Run(tr, acts) && Enabled(tr[|acts|], a)
    ensures Run(tr', acts') && |acts'| == |acts| + 1 && tr'[|acts'|] == Do(tr[|acts|], a)
  {
    tr', acts' := tr + [Do(tr[|acts|], a)], acts + [a];
    forall n | 0 <= n < |acts'|
      ensures Linked(tr', acts', n)
    {
      assert n < |acts| ==> Linked(tr, acts, n);
    }
  }

  /** Main is about to go round its loop, nothing is asked of the collector, which holds the lock only where it must. */
  ghost predicate Idle(s: State) {
    && InBounds(s) && !s.destroyed && !s.sh.stopping && !s.sh.refresh
    && s.main.pc == MLoop && s.main.running && s.main.needsRedraw
    && s.lock == (if CHolds(s.coll.pc) then Coll else Free)
    && s.mon.scan == 0 && (s.coll.pc.CSweep? ==> Nanos(s.coll.last) == s.now)
  }

  lemma Start() returns (tr: seq<State>, acts: seq<Action>)
    ensures Run(tr, acts) && Idle(tr[|acts|]) && tr[|acts|].coll.pc == CStart
  {
    var start := State(0, Free, false, Shared(false, false, START_MS, 0), Monitor([[], []], 0, 0, 1, 0, 0, 0, 0),
                       CThread(CStart, OfNanos(0), OfNanos(0), false), MThread(MLoop, true, START_MS, 0, true, View(-1, 0, 0, 0, 0, [])),
                       History([[]], -1, 0, 0));
    tr, acts := [start], [];
  }

  /** Where the next step of the collector leads while nothing is asked of it. */
  function Next(pc: CPc, listing: seq<Row>): CPc {
    match pc
    case CStart => CLock
    case CLock => CTest
    case CTest => CAsleep
    case CTimedOut => CCheck
    case CCheck => CClear
    case CClear => CUnlock
    case CUnlock => CClock
    case CClock => CSweep(listing)
    case _ => pc
  }

  lemma CollGoes(tr: seq<State>, acts: seq<Action>, listing: seq<Row>) returns (tr': seq<State>, acts': seq<Action>)
    requires Run(tr, acts) && Idle(tr[|acts|]) && Next(tr[|acts|].coll.pc, listing) != tr[|acts|].coll.pc
    ensures Run(tr', acts') && Idle(tr'[|acts'|]) && tr'[|acts'|].coll.pc == Next(tr[|acts|].coll.pc, listing)
  {
    tr', acts' := OneMoreStep(tr, acts, CollStep(listing));
  }

  /** However long the deadline is off, time gets there. */
  lemma DeadlinePasses(tr: seq<State>, acts: seq<Action>) returns (tr': seq<State>, acts': seq<Action>)
    requires Run(tr, acts) && Idle(tr[|acts|]) && tr[|acts|].coll.pc == CAsleep
    ensures Run(tr', acts') && Idle(tr'[|acts'|]) && tr'[|acts'|].coll.pc == CTimedOut
  {
    var s := tr[|acts|];
    var ns: nat := if Nanos(s.coll.deadline) > s.now then Nanos(s.coll.deadline) - s.now else 1;
    tr', acts' := OneMoreStep(tr, acts, Tick(ns));
    tr', acts' := OneMoreStep(tr', acts', TimeOut);
  }

  /** A step of main that touches nothing but its own variables and the lock. */
  ghost predicate OnlyMain(s: State, s': State) { s' == s.(lock := s'.lock, main := s'.main) && InBounds(s') }

  lemma MainReadsKey(tr: seq<State>, acts: seq<Action>) returns (tr': seq<State>, acts': seq<Action>)
    requires Run(tr, acts) && Idle(tr[|acts|]) && tr[|acts|].lock == Free
    ensures Run(tr', acts') && OnlyMain(tr[|acts|], tr'[|acts'|])
    ensures tr'[|acts'|].main.pc == MDrawLock && tr'[|acts'|].main.needsRedraw && tr'[|acts'|].lock == Free
  {
    tr', acts' := OneMoreStep(tr, acts, MainStep(NoKey));
    assert tr'[|acts'|].main.pc == MKey;
    tr', acts' := OneMoreStep(tr', acts', MainStep(NoKey));
  }

  /** Main reaches the drawing code while the collector stays where it is, away from the lock. */
  lemma MainDraws(tr: seq<State>, acts: seq<Action>) returns (tr': seq<State>, acts': seq<Action>)
    requires Run(tr, acts) && InBounds(tr[|acts|]) && tr[|acts|].lock == Free && !tr[|acts|].destroyed
    requires tr[|acts|].main.pc == MDrawLock && tr[|acts|].main.needsRedraw
    ensures Run(tr', acts') && OnlyMain(tr[|acts|], tr'[|acts'|])
    ensures tr'[|acts'|].main.pc == MDrawSys && tr'[|acts'|].lock == Main
  {
    tr', acts' := OneMoreStep(tr, acts, MainStep(NoKey));
    assert tr'[|acts'|].main.pc == MGen;
    tr', acts' := OneMoreStep(tr', acts', MainStep(NoKey));
  }

  lemma FallsAsleep(listing: seq<Row>) returns (tr: seq<State>, acts: seq<Action>)
    ensures Run(tr, acts) && Idle(tr[|acts|]) && tr[|acts|].coll.pc == CAsleep
  {
    tr, acts := Start();
    tr, acts := CollGoes(tr, acts, listing);
    tr, acts := CollGoes(tr, acts, listing);
    tr, acts := CollGoes(tr, acts, listing);
  }

  lemma PassesTest(listing: seq<Row>) returns (tr: seq<State>, acts: seq<Action>)
    ensures Run(tr, acts) && Idle(tr[|acts|]) && tr[|acts|].coll.pc == CClear
  {
    tr, acts := FallsAsleep(listing);
    tr, acts := DeadlinePasses(tr, acts);
    tr, acts := CollGoes(tr, acts, listing);
    tr, acts := CollGoes(tr, acts, listing);
  }

  lemma BeginsToSweep(listing: seq<Row>) returns (tr: seq<State>, acts: seq<Action>)
    ensures Run(tr, acts) && Idle(tr[|acts|]) && tr[|acts|].coll.pc == CSweep(listing)
  {
    tr, acts := PassesTest(listing);
    tr, acts := CollGoes(tr, acts, listing);
    tr, acts := CollGoes(tr, acts, listing);
    tr, acts := CollGoes(tr, acts, listing);
  }

  /** Both threads can make their access, and what main reads depends on who is first. */
  ghost predicate Race(s: State) {
    && s.main.pc == MDrawSys && s.lock == Main && StoresScan(s.coll.pc)
    && Enabled(s, MainStep(NoKey)) && Enabled(s, CollStep([]))
    && Enabled(Do(s, CollStep([])), MainStep(NoKey))
    && Do(s, MainStep(NoKey)).main.view.scan != Do(Do(s, CollStep([])), MainStep(NoKey)).main.view.scan
  }

  lemma LateStoreRaces(s: State)
    requires InBounds(s) && s.main.pc == MDrawSys && s.lock == Main && s.coll.pc == CSweep([])
    requires s.mon.scan != s.now - Nanos(s.coll.last)
    ensures Race(s)
  {
    var t := DoSweep(s, []);
    assert Do(s, CollStep([])) == t;
    assert t.mon.scan == s.now - Nanos(s.coll.last) && t.main == s.main && t.lock == Main;
    assert DoDraw(s).main.view.scan == s.mon.scan && DoDraw(t).main.view.scan == t.mon.scan;
  }

  /** Such a state is reached. */
  lemma ScanTimeIsUnprotected() returns (tr: seq<State>, acts: seq<Action>)
    ensures Run(tr, acts) && Race(tr[|acts|])
  {
    tr, acts := BeginsToSweep([]);
    tr, acts := MainReadsKey(tr, acts);
    tr, acts := MainDraws(tr, acts);
    tr, acts := OneMoreStep(tr, acts, Tick(1));
    LateStoreRaces(tr[|acts|]);
  }
}
