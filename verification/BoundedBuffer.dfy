/**
 The bounded buffer of demo/threadsync.c: one producer, any number of consumers, one mutex and
 two condition variables, as a transition system in which every thread has a program counter.
 Waits follow POSIX.1-2017: a wait releases the mutex and blocks in one step, a signal unblocks
 one waiter if there is one, and a waiter may also wake for no reason at any time.
 */
module BoundedBuffer {
  import opened RingBuffer
  import opened Tally

  const STOP: int := -1

  /** The three compile-time constants of the demo, left arbitrary. */
  datatype Config = Config(slots: nat, items: nat, consumers: nat)

  datatype Option<T> = None | Some(value: T)

  datatype Owner = Free | Producer | Consumer(id: nat)

  datatype PPc = PLock | PTest | PAsleep | PWoken | PStore | PSignal | PUnlock | PDone

  datatype CPc = CLock | CTest | CAsleep | CWoken | CTake | CSignal(item: int) | CUnlock(item: int) | CDone

  datatype Taken = Taken(who: nat, item: int)

  /** `puts` and `takes` record everything that ever went through the buffer. */
  datatype State = State(
    owner: Owner, ring: Ring, prod: PPc, next: nat, cons: seq<CPc>, puts: seq<int>, takes: seq<Taken>)

  datatype Action =
    | ProducerStep(wake: Option<nat>)
    | ConsumerStep(id: nat)
    | SpuriousProducer
    | SpuriousConsumer(id: nat)

  /** What the producer puts, in order: the items 1, 2, ... and then a stop marker per consumer. */
  function Script(c: Config): seq<int> {
    seq(c.items + c.consumers, i => if i < c.items then i + 1 else STOP)
  }

  function Items(takes: seq<Taken>): (r: seq<int>)
    ensures |r| == |takes|
  {
    seq(|takes|, i requires 0 <= i < |takes| => takes[i].item)
  }

  ghost predicate Shape(c: Config, s: State) {
    && |s.ring.slots| == c.slots && s.ring.Valid()
    && |s.cons| == c.consumers
    && (if s.prod == PDone then s.next == |Script(c)| else s.next < |Script(c)|)
    && (s.prod == PStore ==> s.ring.count < c.slots)
    && (forall i :: 0 <= i < |s.cons| && s.cons[i] == CTake ==> s.ring.count > 0)
  }

  ghost predicate SomeAsleep(s: State) {
    exists i :: 0 <= i < |s.cons| && s.cons[i] == CAsleep
  }

  ghost predicate Enabled(c: Config, s: State, a: Action) {
    && Shape(c, s)
    && match a
       case ProducerStep(wake) => (
         match s.prod
         case PLock | PWoken => s.owner == Free
         case PTest | PStore | PUnlock => s.owner == Producer
         case PSignal =>
           && s.owner == Producer
           && (match wake
               case Some(i) => i < |s.cons| && s.cons[i] == CAsleep
               case None => !SomeAsleep(s))
         case PAsleep | PDone => false)
       case ConsumerStep(id) =>
         && id < |s.cons|
         && (match s.cons[id]
             case CLock | CWoken => s.owner == Free
             case CTest | CTake | CSignal(_) | CUnlock(_) => s.owner == Consumer(id)
             case CAsleep | CDone => false)
       case SpuriousProducer => s.prod == PAsleep
       case SpuriousConsumer(id) => id < |s.cons| && s.cons[id] == CAsleep
  }

  ghost function DoProducer(c: Config, s: State, wake: Option<nat>): State
    requires Enabled(c, s, ProducerStep(wake))
  {
    match s.prod
    case PLock | PWoken => s.(owner := Producer, prod := PTest)
    case PTest => if s.ring.count == c.slots then s.(owner := Free, prod := PAsleep) else s.(prod := PStore)
    case PStore =>
      var item := Script(c)[s.next];
      s.(ring := s.ring.Put(item), puts := s.puts + [item], prod := PSignal)
    case PSignal => (
      match wake
      case Some(i) => s.(cons := s.cons[i := CWoken], prod := PUnlock)
      case None => s.(prod := PUnlock))
    case PUnlock =>
      s.(owner := Free, next := s.next + 1, prod := if s.next + 1 == |Script(c)| then PDone else PLock)
  }

  ghost function DoConsumer(c: Config, s: State, id: nat): State
    requires Enabled(c, s, ConsumerStep(id))
  {
    match s.cons[id]
    case CLock | CWoken => s.(owner := Consumer(id), cons := s.cons[id := CTest])
    case CTest =>
      if s.ring.count == 0 then s.(owner := Free, cons := s.cons[id := CAsleep]) else s.(cons := s.cons[id := CTake])
    case CTake =>
      var item := s.ring.slots[s.ring.head];
      s.(ring := s.ring.Take(), takes := s.takes + [Taken(id, item)], cons := s.cons[id := CSignal(item)])
    case CSignal(item) =>
      s.(prod := if s.prod == PAsleep then PWoken else s.prod, cons := s.cons[id := CUnlock(item)])
    case CUnlock(item) =>
      s.(owner := Free, cons := s.cons[id := if item == STOP then CDone else CLock])
  }

  ghost function Do(c: Config, s: State, a: Action): State
    requires Enabled(c, s, a)
  {
    match a
    case ProducerStep(wake) => DoProducer(c, s, wake)
    case ConsumerStep(id) => DoConsumer(c, s, id)
    case SpuriousProducer => s.(prod := PWoken)
    case SpuriousConsumer(id) => s.(cons := s.cons[id := CWoken])
  }

  ghost function Init(c: Config, slots: seq<int>): State {
    State(Free, Ring(slots, 0, 0, 0), if |Script(c)| == 0 then PDone else PLock, 0,
          seq(c.consumers, _ => CLock), [], [])
  }

  /** A run: any interleaving, from any initial contents of the (uninitialised) slots. */
  ghost predicate Run(c: Config, tr: seq<State>, acts: seq<Action>) {
    && c.slots >= 1
    && |tr| == |acts| + 1
    && |tr[0].ring.slots| == c.slots && tr[0] == Init(c, tr[0].ring.slots)
    && forall i :: 0 <= i < |acts| ==> Enabled(c, tr[i], acts[i]) && tr[i + 1] == Do(c, tr[i], acts[i])
  }

  // ---- The invariant ----

  predicate ProducerHolds(pc: PPc) { pc.PTest? || pc.PStore? || pc.PSignal? || pc.PUnlock? }

  predicate ConsumerHolds(pc: CPc) { pc == CTest || pc == CTake || pc.CSignal? || pc.CUnlock? }

  /** 1 for a consumer that will look at the count again before it can sleep. */
  function Active(pc: CPc): int { if pc.CWoken? || pc.CTest? || pc.CTake? then 1 else 0 }

  function Woken(pc: CPc): int { if pc == CWoken then 1 else 0 }

  /** 1 for a consumer that has taken its stop marker. */
  function Stopped(pc: CPc): int {
    if pc.CDone? || ((pc.CSignal? || pc.CUnlock?) && pc.item == STOP) then 1 else 0
  }

  function StopsTaken(takes: seq<Taken>): nat {
    if takes == [] then 0
    else StopsTaken(takes[..|takes| - 1]) + if takes[|takes| - 1].item == STOP then 1 else 0
  }

  function StopsTakenBy(takes: seq<Taken>, id: nat): nat {
    if takes == [] then 0
    else StopsTakenBy(takes[..|takes| - 1], id) + if takes[|takes| - 1] == Taken(id, STOP) then 1 else 0
  }

  ghost predicate Mutex(s: State) {
    && (s.owner == Producer <==> ProducerHolds(s.prod))
    && (forall i :: 0 <= i < |s.cons| ==> (s.owner == Consumer(i) <==> ConsumerHolds(s.cons[i])))
    && (s.owner.Consumer? ==> s.owner.id < |s.cons|)
  }

  ghost predicate Fifo(c: Config, s: State) {
    && Shape(c, s)
    && s.puts == Items(s.takes) + s.ring.Contents()
    && s.puts == Script(c)[..if s.prod.PSignal? || s.prod.PUnlock? then s.next + 1 else s.next]
  }

  ghost predicate Markers(s: State) {
    && StopsTaken(s.takes) == Total(Stopped, s.cons)
    && forall i :: 0 <= i < |s.cons| ==> StopsTakenBy(s.takes, i) == Stopped(s.cons[i])
  }

  ghost predicate NoLostWakeup(c: Config, s: State) {
    && (SomeAsleep(s) ==> s.ring.count <= Total(Active, s.cons) + if s.prod == PSignal then 1 else 0)
    && (s.prod == PAsleep ==> s.ring.count == c.slots || exists i :: 0 <= i < |s.cons| && s.cons[i].CSignal?)
  }

  ghost predicate Inv(c: Config, s: State) {
    && c.slots >= 1
    && Shape(c, s) && Mutex(s) && Fifo(c, s) && Markers(s) && NoLostWakeup(c, s)
  }

  lemma StopsAppend(takes: seq<Taken>, x: Taken, id: nat)
    ensures StopsTaken(takes + [x]) == StopsTaken(takes) + if x.item == STOP then 1 else 0
    ensures StopsTakenBy(takes + [x], id) == StopsTakenBy(takes, id) + if x == Taken(id, STOP) then 1 else 0
  {
    assert (takes + [x])[..|takes|] == takes;
  }

  lemma InitInv(c: Config, slots: seq<int>)
    requires c.slots >= 1 && |slots| == c.slots
    ensures Inv(c, Init(c, slots))
  {
    TotalUniform(Stopped, Init(c, slots).cons, 0);
  }

  lemma ProducerKeepsMutex(c: Config, s: State, wake: Option<nat>)
    requires Inv(c, s) && Enabled(c, s, ProducerStep(wake))
    ensures Shape(c, DoProducer(c, s, wake)) && Mutex(DoProducer(c, s, wake))
  {
    if s.prod.PStore? {
      PutAppends(s.ring, Script(c)[s.next]);
    }
  }

  lemma ProducerKeepsFifo(c: Config, s: State, wake: Option<nat>)
    requires Inv(c, s) && Enabled(c, s, ProducerStep(wake))
    ensures Fifo(c, DoProducer(c, s, wake))
  {
    ProducerKeepsMutex(c, s, wake);
    if s.prod.PStore? {
      PutKeepsFifo(c, s);
    }
  }

  lemma PutKeepsFifo(c: Config, s: State)
    requires Fifo(c, s) && Enabled(c, s, ProducerStep(None)) && s.prod.PStore?
    ensures Fifo(c, DoProducer(c, s, None))
  {
    PutAppends(s.ring, Script(c)[s.next]);
  }

  lemma ProducerKeepsCounts(c: Config, s: State, wake: Option<nat>)
    requires Inv(c, s) && Enabled(c, s, ProducerStep(wake))
    ensures Markers(DoProducer(c, s, wake)) && NoLostWakeup(c, DoProducer(c, s, wake))
  {
    if s.prod.PSignal? && wake.Some? {
      TotalUpdate(Stopped, s.cons, wake.value, CWoken);
      TotalUpdate(Active, s.cons, wake.value, CWoken);
    }
  }

  lemma ConsumerKeepsMutex(c: Config, s: State, id: nat)
    requires Inv(c, s) && Enabled(c, s, ConsumerStep(id))
    ensures Shape(c, DoConsumer(c, s, id)) && Mutex(DoConsumer(c, s, id))
  {
    if s.cons[id].CTake? {
      TakeRemovesFront(s.ring);
    }
  }

  lemma ConsumerKeepsFifo(c: Config, s: State, id: nat)
    requires Inv(c, s) && Enabled(c, s, ConsumerStep(id))
    ensures Fifo(c, DoConsumer(c, s, id))
  {
    ConsumerKeepsMutex(c, s, id);
    if s.cons[id].CTake? {
      TakeKeepsFifo(c, s, id);
    }
  }

  lemma TakeKeepsFifo(c: Config, s: State, id: nat)
    requires Fifo(c, s) && Enabled(c, s, ConsumerStep(id)) && s.cons[id].CTake?
    requires !s.prod.PStore? && Shape(c, DoConsumer(c, s, id))
    ensures Fifo(c, DoConsumer(c, s, id))
  {
    TakeRemovesFront(s.ring);
    assert Items(DoConsumer(c, s, id).takes) == Items(s.takes) + [s.ring.slots[s.ring.head]];
  }

  lemma ConsumerKeepsMarkers(c: Config, s: State, id: nat)
    requires Inv(c, s) && Enabled(c, s, ConsumerStep(id))
    ensures Markers(DoConsumer(c, s, id))
  {
    TotalUpdate(Stopped, s.cons, id, DoConsumer(c, s, id).cons[id]);
    if s.cons[id].CTake? {
      TakeKeepsMarkers(s, id, s.ring.slots[s.ring.head], DoConsumer(c, s, id));
    }
  }

  lemma TakeKeepsMarkers(s: State, id: nat, item: int, s': State)
    requires Markers(s) && id < |s.cons| && s.cons[id].CTake?
    requires s'.cons == s.cons[id := CSignal(item)] && s'.takes == s.takes + [Taken(id, item)]
    ensures Markers(s')
  {
    var x := Taken(id, item);
    TotalUpdate(Stopped, s.cons, id, CSignal(item));
    StopsAppend(s.takes, x, id);
    forall i | 0 <= i < |s.cons|
      ensures StopsTakenBy(s'.takes, i) == Stopped(s'.cons[i])
    {
      StopsAppend(s.takes, x, i);
    }
  }

  lemma ConsumerKeepsNoLostWakeup(c: Config, s: State, id: nat)
    requires Inv(c, s) && Enabled(c, s, ConsumerStep(id))
    ensures NoLostWakeup(c, DoConsumer(c, s, id))
  {
    var s' := DoConsumer(c, s, id);
    TotalUpdate(Active, s.cons, id, s'.cons[id]);
    TotalNonNegative(Active, s'.cons);
    assert s'.cons[id] != s.cons[id];
  }

  lemma SpuriousKeepsInv(c: Config, s: State, id: nat)
    requires Inv(c, s) && Enabled(c, s, SpuriousConsumer(id))
    ensures Inv(c, Do(c, s, SpuriousConsumer(id)))
  {
    TotalUpdate(Stopped, s.cons, id, CWoken);
    TotalUpdate(Active, s.cons, id, CWoken);
  }

  lemma StepKeepsInv(c: Config, s: State, a: Action)
    requires Inv(c, s) && Enabled(c, s, a)
    ensures Inv(c, Do(c, s, a))
  {
    match a {
      case ProducerStep(wake) =>
        ProducerKeepsMutex(c, s, wake);
        ProducerKeepsFifo(c, s, wake);
        ProducerKeepsCounts(c, s, wake);
      case ConsumerStep(id) =>
        ConsumerKeepsMutex(c, s, id);
        ConsumerKeepsFifo(c, s, id);
        ConsumerKeepsMarkers(c, s, id);
        ConsumerKeepsNoLostWakeup(c, s, id);
      case SpuriousProducer =>
      case SpuriousConsumer(id) => SpuriousKeepsInv(c, s, id);
    }
  }

  lemma {:induction false} RunInv(c: Config, tr: seq<State>, acts: seq<Action>, n: nat)
    requires Run(c, tr, acts) && n < |tr|
    ensures Inv(c, tr[n])
  {
    if n == 0 {
      InitInv(c, tr[0].ring.slots);
    } else {
      RunInv(c, tr, acts, n - 1);
      StepKeepsInv(c, tr[n - 1], acts[n - 1]);
    }
  }

  // ---- First in, first out ----

  /**
   At every point of every run, what was put so far is what was taken so far followed by the ring's
   contents read from the head, and it is a prefix of the script: nothing is lost, duplicated or
   reordered.
   */
  lemma Conservation(c: Config, tr: seq<State>, acts: seq<Action>, n: nat)
    requires Run(c, tr, acts) && n < |tr|
    ensures var s := tr[n];
            && s.ring.Valid()
            && s.puts == Items(s.takes) + s.ring.Contents()
            && s.puts <= Script(c)
  {
    RunInv(c, tr, acts, n);
  }

  /** The j-th thing taken is the j-th thing of the script, so no marker is taken before every item is. */
  lemma TakenInOrder(c: Config, s: State, j: nat)
    requires Inv(c, s) && j < |s.takes|
    ensures |s.takes| <= |Script(c)| && s.takes[j].item == Script(c)[j]
    ensures s.takes[j].item == STOP <==> j >= c.items
  {
    assert s.takes[j].item == Items(s.takes)[j] == s.puts[j];
  }

  lemma {:induction false} StopsInPrefix(c: Config, takes: seq<Taken>)
    requires |takes| <= |Script(c)|
    requires forall j :: 0 <= j < |takes| ==> takes[j].item == Script(c)[j]
    ensures StopsTaken(takes) == if |takes| <= c.items then 0 else |takes| - c.items
  {
    if takes != [] {
      StopsInPrefix(c, takes[..|takes| - 1]);
    }
  }

  /** The markers taken are exactly the script's entries after the last item. */
  lemma StopsSoFar(c: Config, s: State)
    requires Inv(c, s)
    ensures |s.takes| <= |Script(c)|
    ensures Total(Stopped, s.cons) == if |s.takes| <= c.items then 0 else |s.takes| - c.items
  {
    assert |s.puts| <= |Script(c)|;
    forall j | 0 <= j < |s.takes|
      ensures s.takes[j].item == Script(c)[j]
    {
      TakenInOrder(c, s, j);
    }
    StopsInPrefix(c, s.takes);
  }

  // ---- No wakeup is lost ----

  /**
   Whenever the lock is free: if some consumer still sleeps, the woken ones are enough to empty the
   buffer, and if the producer sleeps the buffer is full.
   */
  lemma NoSleeperIsForgotten(c: Config, tr: seq<State>, acts: seq<Action>, n: nat)
    requires Run(c, tr, acts) && n < |tr| && tr[n].owner == Free
    ensures SomeAsleep(tr[n]) ==> tr[n].ring.count <= Total(Woken, tr[n].cons)
    ensures tr[n].prod == PAsleep ==> tr[n].ring.count == c.slots
  {
    RunInv(c, tr, acts, n);
    TotalSame(Active, Woken, tr[n].cons);
  }

  // ---- No deadlock ----

  ghost predicate Final(s: State) {
    s.prod == PDone && forall i :: 0 <= i < |s.cons| ==> s.cons[i] == CDone
  }

  predicate Spurious(a: Action) { a.SpuriousProducer? || a.SpuriousConsumer? }

  ghost predicate CanStep(c: Config, s: State) {
    exists a :: Enabled(c, s, a) && !Spurious(a)
  }

  lemma OwnerCanStep(c: Config, s: State)
    requires Inv(c, s) && s.owner != Free
    ensures CanStep(c, s)
  {
    if s.owner == Producer {
      if s.prod == PSignal && SomeAsleep(s) {
        var i :| 0 <= i < |s.cons| && s.cons[i] == CAsleep;
        assert Enabled(c, s, ProducerStep(Some(i)));
      } else {
        assert Enabled(c, s, ProducerStep(None));
      }
    } else {
      assert Enabled(c, s, ConsumerStep(s.owner.id));
    }
  }

  /** With the lock free and every thread asleep or finished, the counts force every thread to be finished. */
  lemma AllQuietIsFinal(c: Config, s: State)
    requires Inv(c, s) && c.consumers >= 1 && s.owner == Free
    requires s.prod == PAsleep || s.prod == PDone
    requires forall i :: 0 <= i < |s.cons| ==> s.cons[i] == CAsleep || s.cons[i] == CDone
    ensures Final(s)
  {
    StopsSoFar(c, s);
    TotalUniform(Active, s.cons, 0);
    TotalAtMost(Stopped, s.cons, 1);
    if !SomeAsleep(s) {
      TotalUniform(Stopped, s.cons, 1);
    }
  }

  /** Every reachable state that is not final has a step that does not rely on a spurious wakeup. */
  lemma DeadlockFree(c: Config, tr: seq<State>, acts: seq<Action>, n: nat)
    requires Run(c, tr, acts) && n < |tr| && c.consumers >= 1 && !Final(tr[n])
    ensures CanStep(c, tr[n])
  {
    RunInv(c, tr, acts, n);
    var s := tr[n];
    if s.owner != Free {
      OwnerCanStep(c, s);
    } else if s.prod == PLock || s.prod == PWoken {
      assert Enabled(c, s, ProducerStep(None));
    } else if i :| 0 <= i < |s.cons| && (s.cons[i] == CLock || s.cons[i] == CWoken) {
      assert Enabled(c, s, ConsumerStep(i));
    } else {
      AllQuietIsFinal(c, s);
    }
  }

  // ---- Every run comes to an end ----

  function PWeight(pc: PPc): int {
    match pc
    case PLock | PWoken => 3
    case PTest => 2
    case PAsleep | PDone => 0
    case PStore => 1
    case PSignal => 8
    case PUnlock => 4
  }

  function CWeight(pc: CPc): int {
    match pc
    case CLock | CWoken => 3
    case CTest => 2
    case CAsleep | CDone => 0
    case CTake => 1
    case CSignal(_) => 8
    case CUnlock(_) => 4
  }

  /** Work left: ten units for each put and each take to come, and what each thread has in hand. */
  ghost function Measure(c: Config, s: State): int {
    PWeight(s.prod) + Total(CWeight, s.cons) + 10 * (|Script(c)| - |s.puts|) + 10 * (|Script(c)| - |s.takes|)
  }

  lemma ProducerMeasureDrops(c: Config, s: State, wake: Option<nat>)
    requires Inv(c, s) && Enabled(c, s, ProducerStep(wake))
    ensures Measure(c, DoProducer(c, s, wake)) < Measure(c, s)
  {
    if s.prod.PSignal? && wake.Some? {
      TotalUpdate(CWeight, s.cons, wake.value, CWoken);
    }
  }

  lemma MeasureDrops(c: Config, s: State, a: Action)
    requires Inv(c, s) && Enabled(c, s, a)
    ensures Measure(c, Do(c, s, a)) <= Measure(c, s) + if Spurious(a) then 3 else -1
  {
    match a {
      case ProducerStep(wake) => ProducerMeasureDrops(c, s, wake);
      case ConsumerStep(id) => TotalUpdate(CWeight, s.cons, id, DoConsumer(c, s, id).cons[id]);
      case SpuriousProducer =>
      case SpuriousConsumer(id) => TotalUpdate(CWeight, s.cons, id, CWoken);
    }
  }

  function SpuriousCount(acts: seq<Action>): nat {
    if acts == [] then 0
    else SpuriousCount(acts[..|acts| - 1]) + if Spurious(acts[|acts| - 1]) then 1 else 0
  }

  lemma {:induction false} MeasureOfRun(c: Config, tr: seq<State>, acts: seq<Action>, n: nat)
    requires Run(c, tr, acts) && n < |tr|
    ensures n + Measure(c, tr[n]) <= Measure(c, tr[0]) + 4 * SpuriousCount(acts[..n])
  {
    if n > 0 {
      MeasureOfRun(c, tr, acts, n - 1);
      RunInv(c, tr, acts, n - 1);
      MeasureDrops(c, tr[n - 1], acts[n - 1]);
      assert acts[..n][..n - 1] == acts[..n - 1];
    }
  }

  lemma MeasureNonNegative(c: Config, s: State)
    requires Inv(c, s)
    ensures Measure(c, s) >= 0
  {
    StopsSoFar(c, s);
    TotalNonNegative(CWeight, s.cons);
  }

  /** The number of steps of a run is bounded: by a constant, plus four for each spurious wakeup in it. */
  lemma RunsAreBounded(c: Config, tr: seq<State>, acts: seq<Action>)
    requires Run(c, tr, acts)
    ensures |acts| <= 20 * (c.items + c.consumers) + 3 * c.consumers + 3 + 4 * SpuriousCount(acts)
  {
    var n := |acts|;
    assert acts[..n] == acts;
    MeasureOfRun(c, tr, acts, n);
    RunInv(c, tr, acts, n);
    MeasureNonNegative(c, tr[n]);
    TotalUniform(CWeight, tr[0].cons, 3);
  }

  /**
   A run that can only go on by a spurious wakeup is complete: every item reached exactly one
   consumer, each consumer took exactly one stop marker, the ring is empty and the lock is free.
   */
  lemma RunsComplete(c: Config, tr: seq<State>, acts: seq<Action>)
    requires Run(c, tr, acts) && c.consumers >= 1 && !CanStep(c, tr[|acts|])
    ensures var s := tr[|acts|];
            && Final(s) && s.owner == Free && s.ring.count == 0
            && Items(s.takes) == Script(c) == s.puts
            && (forall i :: 0 <= i < c.consumers ==> StopsTakenBy(s.takes, i) == 1)
            && (forall j :: 0 <= j < |s.takes| ==> s.takes[j].item == if j < c.items then j + 1 else STOP)
  {
    var s := tr[|acts|];
    if !Final(s) {
      DeadlockFree(c, tr, acts, |acts|);
    }
    RunInv(c, tr, acts, |acts|);
    StopsSoFar(c, s);
    TotalUniform(Stopped, s.cons, 1);
    assert Items(s.takes) == Script(c) && s.puts == Script(c);
    forall j | 0 <= j < |s.takes|
      ensures s.takes[j].item == Script(c)[j]
    {
      TakenInOrder(c, s, j);
    }
  }
}
