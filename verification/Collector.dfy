/**
 The two threads of the monitor as a transition system: the collector thread of
 src/collector/collector.c and the main loop of src/main.c, step by step, with the lock, the timed
 condition wait and the two process buffers they share. Waits follow POSIX.1-2017: a timed wait
 releases the lock and blocks in one step, and ends by a signal, by its deadline, or for no reason.
 */
module Collector {
  import opened Clock

  const MIN_MS: int := 500
  const MAX_MS: int := 10000
  const START_MS: int := 2000

  /** One row of a sample; `info` stands for every column but the PID. */
  datatype Row = Row(pid: int, info: int)

  datatype Owner = Free | Main | Coll

  /** The fields of km_collector that the lock protects. */
  datatype Shared = Shared(stopping: bool, refresh: bool, interval: int, generation: nat)

  /**
   The process and system monitors. The two buffers are addressed by number, as the code does by
   pointer; `events` and `sys` tell up to which sample the events and the system figures are, and
   `scan` is last_scan_ms, in nanoseconds.
   */
  datatype Monitor = Monitor(
    bufs: seq<seq<Row>>, front: nat, count: nat, back: nat, backCount: nat, events: nat, sys: nat, scan: int)

  datatype CPc =
    | CStart | CLock | CTest | CAsleep | CWoken | CTimedOut | CCheck | CClear | CUnlock | CClock
    | CSweep(rest: seq<Row>) | CRelock | CSys | CDetect | CFront | CCount(tmp: nat) | CBack(tmp: nat) | CBump
    | CExit | CExited

  datatype CThread = CThread(pc: CPc, last: Timespec, deadline: Timespec, byRequest: bool)

  datatype MPc =
    | MLoop | MKey
    | MReqLock | MReqSet | MReqSignal | MReqUnlock
    | MIntLock | MIntSet | MIntSignal | MIntUnlock
    | MFindLock(pid: int) | MFind(pid: int) | MCopy(pid: int, buf: nat, index: nat)
    | MFindUnlock(pid: int, name: seq<Row>) | MConfirm(pid: int, name: seq<Row>)
    | MDrawLock | MGen | MDrawSys | MDrawEvents | MDrawCount | MDrawRow(i: nat) | MDrawUnlock
    | MStopLock | MStopSet | MStopSignal | MStopUnlock | MJoin | MDestroy | MDone

  /** What the last frame was drawn from, and the generation it was drawn at; -1 before the first. */
  datatype View = View(gen: int, sys: int, scan: int, events: int, count: nat, rows: seq<Row>)

  datatype MThread = MThread(pc: MPc, running: bool, interval: int, drawn: nat, needsRedraw: bool, view: View)

  /**
   History: the answer of the kernel to each sweep, in order; how many sweeps had begun at the last
   refresh request (-1 if none); how many requests there were and how many sweeps answered one.
   */
  datatype History = History(samples: seq<seq<Row>>, mark: int, requests: nat, served: nat)

  datatype State = State(
    now: int, lock: Owner, destroyed: bool,
    sh: Shared, mon: Monitor, coll: CThread, main: MThread, hist: History)

  datatype Key = NoKey | Quit | Refresh | Slower | Faster | SignalProcess(pid: int) | OtherKey(handled: bool)

  datatype Action =
    | CollStep(listing: seq<Row>)
    | MainStep(key: Key)
    | Spurious
    | TimeOut
    | Tick(ns: nat)
    | Interrupt

  predicate CHolds(pc: CPc) {
    match pc
    case CTest | CCheck | CClear | CUnlock | CSys | CDetect | CFront | CCount(_) | CBack(_) | CBump | CExit => true
    case _ => false
  }

  predicate MHolds(pc: MPc) {
    match pc
    case MReqSet | MReqSignal | MReqUnlock | MIntSet | MIntSignal | MIntUnlock => true
    case MFind(_) | MCopy(_, _, _) | MFindUnlock(_, _) => true
    case MGen | MDrawSys | MDrawEvents | MDrawCount | MDrawRow(_) | MDrawUnlock => true
    case MStopSet | MStopSignal | MStopUnlock => true
    case _ => false
  }

  predicate CWants(pc: CPc) { pc.CLock? || pc.CWoken? || pc.CTimedOut? || pc.CRelock? }

  predicate MWants(pc: MPc) { pc.MReqLock? || pc.MIntLock? || pc.MFindLock? || pc.MDrawLock? || pc.MStopLock? }

  /** The buffer accesses that the two threads are about to make are in bounds. */
  ghost predicate InBounds(s: State) {
    && |s.mon.bufs| == 2 && s.mon.front < 2 && s.mon.back < 2
    && s.mon.backCount <= |s.mon.bufs[s.mon.back]|
    && (s.main.pc.MDrawRow? && s.main.pc.i < s.main.view.count ==> s.main.pc.i < |s.mon.bufs[s.mon.front]|)
    && (s.main.pc.MCopy? ==> s.main.pc.buf < 2 && s.main.pc.index < |s.mon.bufs[s.main.pc.buf]|)
  }

  /** The collector can take its next step: it takes a lock that is free, holds the one it needs, or needs none. */
  predicate CReady(s: State) {
    if CWants(s.coll.pc) then s.lock == Free && !s.destroyed
    else if CHolds(s.coll.pc) then s.lock == Coll
    else !s.coll.pc.CAsleep? && !s.coll.pc.CExited?
  }

  predicate MReady(s: State) {
    if MWants(s.main.pc) then s.lock == Free && !s.destroyed
    else if MHolds(s.main.pc) then s.lock == Main
    else if s.main.pc.MJoin? then s.coll.pc.CExited?
    else !s.main.pc.MDone?
  }

  ghost predicate Enabled(s: State, a: Action) {
    && InBounds(s)
    && match a
       case CollStep(_) => CReady(s)
       case MainStep(_) => MReady(s)
       case Spurious => s.coll.pc.CAsleep?
       case TimeOut => s.coll.pc.CAsleep? && s.now >= Nanos(s.coll.deadline)
       case Tick(ns) => ns > 0
       case Interrupt => s.main.running
  }

  // ---- The collector thread ----

  /** Writing row number n of a buffer that grows when it is full. */
  function Write(buf: seq<Row>, n: nat, row: Row): seq<Row>
    requires n <= |buf|
  {
    if n == |buf| then buf + [row] else buf[n := row]
  }

  ghost function At(s: State, pc: CPc): State { s.(coll := s.coll.(pc := pc)) }

  /** The wait loop and the test of `stopping`, up to the start of the sweep. */
  ghost function DoWait(s: State): State
  {
    match s.coll.pc
    case CStart => s.(coll := s.coll.(pc := CLock, last := OfNanos(s.now)))
    case CLock | CWoken => At(s, CTest).(lock := Coll)
    case CTest =>
      if s.sh.stopping || s.sh.refresh then At(s, CCheck)
      else s.(lock := Free, coll := s.coll.(pc := CAsleep, deadline := AddMs(s.coll.last, s.sh.interval)))
    case CTimedOut => At(s, CCheck).(lock := Coll)
    case CCheck => At(s, if s.sh.stopping then CExit else CClear)
    case CClear =>
      s.(sh := s.sh.(refresh := false), coll := s.coll.(pc := CUnlock, byRequest := s.sh.refresh),
         hist := s.hist.(served := s.hist.served + if s.sh.refresh then 1 else 0))
    case CUnlock => At(s, CClock).(lock := Free)
    case CExit => At(s, CExited).(lock := Free)
    case _ => s
  }

  /** The sweep into the back buffer, which runs without the lock, and at its end the time it took. */
  ghost function DoSweep(s: State, listing: seq<Row>): State
    requires InBounds(s)
  {
    match s.coll.pc
    case CClock =>
      s.(coll := s.coll.(pc := CSweep(listing), last := OfNanos(s.now)),
         mon := s.mon.(backCount := 0),
         hist := s.hist.(samples := s.hist.samples + [listing]))
    case CSweep(rest) =>
      if rest == [] then At(s, CRelock).(mon := s.mon.(scan := s.now - Nanos(s.coll.last)))
      else
        var buf := Write(s.mon.bufs[s.mon.back], s.mon.backCount, rest[0]);
        At(s, CSweep(rest[1..])).(mon := s.mon.(bufs := s.mon.bufs[s.mon.back := buf], backCount := s.mon.backCount + 1))
    case _ => s
  }

  /** The publication under the lock: system figures, events, the swap in three assignments, the generation. */
  ghost function DoPublish(s: State): State
  {
    match s.coll.pc
    case CRelock => At(s, CSys).(lock := Coll)
    case CSys => At(s, CDetect).(mon := s.mon.(sys := s.mon.sys + 1))
    case CDetect => At(s, CFront).(mon := s.mon.(events := s.mon.events + 1))
    case CFront => At(s, CCount(s.mon.front)).(mon := s.mon.(front := s.mon.back))
    case CCount(tmp) => At(s, CBack(tmp)).(mon := s.mon.(count := s.mon.backCount))
    case CBack(tmp) => At(s, CBump).(mon := s.mon.(back := tmp, backCount := 0))
    case CBump => At(s, CTest).(sh := s.sh.(generation := s.sh.generation + 1))
    case _ => s
  }

  ghost function DoColl(s: State, listing: seq<Row>): State
    requires InBounds(s)
  {
    match s.coll.pc
    case CClock | CSweep(_) => DoSweep(s, listing)
    case CRelock | CSys | CDetect | CFront | CCount(_) | CBack(_) | CBump => DoPublish(s)
    case _ => DoWait(s)
  }

  // ---- The main thread ----

  ghost function To(s: State, pc: MPc): State { s.(main := s.main.(pc := pc)) }

  /** pthread_cond_signal: wakes the collector if it is asleep. */
  ghost function Wake(s: State): State {
    if s.coll.pc.CAsleep? then At(s, CWoken) else s
  }

  function Slow(ms: int): int { if ms + 500 > MAX_MS then MAX_MS else ms + 500 }

  function Fast(ms: int): int { if ms - 500 < MIN_MS then MIN_MS else ms - 500 }

  ghost function DoKey(s: State, key: Key): State {
    var m := s.main;
    match key
    case NoKey => s.(main := m.(pc := MDrawLock))
    case Quit => s.(main := m.(pc := MDrawLock, running := false, needsRedraw := true))
    case Refresh => s.(main := m.(pc := MReqLock, needsRedraw := true))
    case Slower => s.(main := m.(pc := MIntLock, interval := Slow(m.interval), needsRedraw := true))
    case Faster => s.(main := m.(pc := MIntLock, interval := Fast(m.interval), needsRedraw := true))
    case SignalProcess(pid) => s.(main := m.(pc := MFindLock(pid), needsRedraw := true))
    case OtherKey(handled) => s.(main := m.(pc := MDrawLock, needsRedraw := m.needsRedraw || handled))
  }

  /** km_collector_request_refresh. */
  ghost function DoRefresh(s: State): State {
    match s.main.pc
    case MReqLock => To(s, MReqSet).(lock := Main)
    case MReqSet =>
      To(s, MReqSignal).(sh := s.sh.(refresh := true),
                         hist := s.hist.(mark := |s.hist.samples| - 1, requests := s.hist.requests + 1))
    case MReqSignal => To(Wake(s), MReqUnlock)
    case MReqUnlock => To(s, MDrawLock).(lock := Free)
    case _ => s
  }

  /** km_collector_set_interval. */
  ghost function DoInterval(s: State): State {
    match s.main.pc
    case MIntLock => To(s, MIntSet).(lock := Main)
    case MIntSet => To(s, MIntSignal).(sh := s.sh.(interval := s.main.interval))
    case MIntSignal => To(Wake(s), MIntUnlock)
    case MIntUnlock => To(s, MDrawLock).(lock := Free)
    case _ => s
  }

  /** km_collector_stop. */
  ghost function DoStop(s: State): State {
    match s.main.pc
    case MStopLock => To(s, MStopSet).(lock := Main)
    case MStopSet => To(s, MStopSignal).(sh := s.sh.(stopping := true))
    case MStopSignal => To(Wake(s), MStopUnlock)
    case MStopUnlock => To(s, MJoin).(lock := Free)
    case MJoin => To(s, MDestroy)
    case MDestroy => To(s, MDone).(destroyed := true)
    case _ => s
  }

  ghost predicate IsAt(buf: seq<Row>, count: nat, pid: int, i: nat) {
    i < count && i < |buf| && buf[i].pid == pid
  }

  /** signal_selected: find the row, copy the name, release the lock, and only then ask the user. */
  ghost function DoFind(s: State): State
    requires InBounds(s)
  {
    match s.main.pc
    case MFindLock(pid) => To(s, MFind(pid)).(lock := Main)
    case MFind(pid) =>
      if i: nat :| IsAt(s.mon.bufs[s.mon.front], s.mon.count, pid, i) then To(s, MCopy(pid, s.mon.front, i))
      else To(s, MFindUnlock(pid, []))
    case MCopy(pid, buf, i) => To(s, MFindUnlock(pid, [s.mon.bufs[buf][i]]))
    case MFindUnlock(pid, name) => To(s, if name == [] then MDrawLock else MConfirm(pid, name)).(lock := Free)
    case MConfirm(_, _) => To(s, MDrawLock)
    case _ => s
  }

  /** The end of the main loop: look at the generation and, if need be, read everything for a frame. */
  ghost function DoDraw(s: State): State
    requires InBounds(s)
  {
    var m := s.main;
    match m.pc
    case MDrawLock => To(s, MGen).(lock := Main)
    case MGen =>
      var redraw := m.needsRedraw || s.sh.generation != m.drawn;
      s.(main := m.(pc := if redraw then MDrawSys else MDrawUnlock, drawn := s.sh.generation, needsRedraw := redraw))
    case MDrawSys => s.(main := m.(pc := MDrawEvents, view := m.view.(gen := m.drawn, sys := s.mon.sys, scan := s.mon.scan)))
    case MDrawEvents => s.(main := m.(pc := MDrawCount, view := m.view.(events := s.mon.events)))
    case MDrawCount => s.(main := m.(pc := MDrawRow(0), view := m.view.(count := s.mon.count, rows := [])))
    case MDrawRow(i) =>
      if i < m.view.count
      then s.(main := m.(pc := MDrawRow(i + 1), view := m.view.(rows := m.view.rows + [s.mon.bufs[s.mon.front][i]])))
      else s.(main := m.(pc := MDrawUnlock, needsRedraw := false))
    case MDrawUnlock => To(s, MLoop).(lock := Free)
    case _ => s
  }

  predicate Refreshing(pc: MPc) { pc.MReqLock? || pc.MReqSet? || pc.MReqSignal? || pc.MReqUnlock? }

  predicate Adjusting(pc: MPc) { pc.MIntLock? || pc.MIntSet? || pc.MIntSignal? || pc.MIntUnlock? }

  predicate Finding(pc: MPc) {
    pc.MFindLock? || pc.MFind? || pc.MCopy? || pc.MFindUnlock? || pc.MConfirm?
  }

  predicate AtDraw(pc: MPc) {
    pc.MDrawLock? || pc.MGen? || pc.MDrawSys? || pc.MDrawEvents? || pc.MDrawCount? || pc.MDrawRow? || pc.MDrawUnlock?
  }

  ghost function DoMain(s: State, key: Key): State
    requires InBounds(s)
  {
    if s.main.pc.MLoop? then To(s, if s.main.running then MKey else MStopLock)
    else if s.main.pc.MKey? then DoKey(s, key)
    else if Refreshing(s.main.pc) then DoRefresh(s)
    else if Adjusting(s.main.pc) then DoInterval(s)
    else if Finding(s.main.pc) then DoFind(s)
    else if AtDraw(s.main.pc) then DoDraw(s)
    else DoStop(s)
  }

  ghost function Do(s: State, a: Action): State
    requires Enabled(s, a)
  {
    match a
    case CollStep(listing) => DoColl(s, listing)
    case MainStep(key) => DoMain(s, key)
    case Spurious => At(s, CWoken)
    case TimeOut => At(s, CTimedOut)
    case Tick(ns) => s.(now := s.now + ns)
    case Interrupt => s.(main := s.main.(running := false))
  }

  // ---- Runs ----

  /** One sample, the first, is published before the collector exists; every buffer may hold older rows beyond it. */
  ghost predicate Initial(s: State) {
    && |s.mon.bufs| == 2 && s.mon.front == 0 && s.mon.back == 1
    && s.mon.backCount == 0 && s.mon.count <= |s.mon.bufs[0]|
    && s.mon.events == s.mon.sys == 0
    && s.lock == Free && !s.destroyed
    && s.sh == Shared(false, false, START_MS, 0)
    && s.coll.pc == CStart
    && s.main == MThread(MLoop, true, START_MS, 0, true, View(-1, 0, 0, 0, 0, []))
    && s.hist == History([s.mon.bufs[0][..s.mon.count]], -1, 0, 0)
  }

  /** Step number n of a run. */
  ghost predicate Linked(tr: seq<State>, acts: seq<Action>, n: nat)
    requires n < |acts| < |tr|
  {
    Enabled(tr[n], acts[n]) && tr[n + 1] == Do(tr[n], acts[n])
  }

  ghost predicate Run(tr: seq<State>, acts: seq<Action>) {
    && |tr| == |acts| + 1
    && Initial(tr[0])
    && forall n {:trigger Linked(tr, acts, n)} :: 0 <= n < |acts| ==> Linked(tr, acts, n)
  }
}
