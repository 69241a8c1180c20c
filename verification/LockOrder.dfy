/**
 Part 5 of demo/threadsync.c: threads that each take a first lock, then ask for a second one with a
 one-second time limit. With barriers the two meetings of do_transfer are modelled as in POSIX: the
 last thread to arrive releases all of them at once.
 */
module LockOrder {
  import opened Tally

  datatype Transfer = Transfer(first: nat, second: nat)

  datatype Config = Config(locks: nat, transfers: seq<Transfer>, useBarrier: bool)

  datatype Owner = Free | Held(id: nat)

  datatype Pc =
    | First
    | Meet
    | AtFirstBarrier
    | Ask
    | Asking(deadline: nat)
    | GotSecond
    | MeetAgain(gaveUp: bool)
    | AtSecondBarrier(gaveUp: bool)
    | ReleaseFirst(gaveUp: bool)
    | Done(gaveUp: bool)

  /** `arrived` counts the threads waiting at the barrier; `now` is the clock in milliseconds. */
  datatype State = State(owner: seq<Owner>, pcs: seq<Pc>, arrived: nat, now: nat)

  datatype Action = Step(id: nat) | TimeOut(id: nat) | Tick(ms: nat)

  const LIMIT_MS: nat := 1000

  ghost predicate WellFormed(c: Config) {
    forall i :: 0 <= i < |c.transfers| ==>
      c.transfers[i].first < c.locks && c.transfers[i].second < c.locks
  }

  ghost predicate Sized(c: Config, s: State) {
    WellFormed(c) && |s.owner| == c.locks && |s.pcs| == |c.transfers|
  }

  /** A timed lock may give up only if its deadline has passed and the lock is not there for the taking. */
  ghost predicate Enabled(c: Config, s: State, a: Action) {
    && Sized(c, s)
    && match a
       case Tick(ms) => ms > 0
       case TimeOut(i) =>
         && i < |s.pcs| && s.pcs[i].Asking?
         && s.now >= s.pcs[i].deadline && s.owner[c.transfers[i].second] != Free
       case Step(i) =>
         && i < |s.pcs|
         && match s.pcs[i]
            case First => s.owner[c.transfers[i].first] == Free
            case Asking(_) => s.owner[c.transfers[i].second] == Free
            case AtFirstBarrier | AtSecondBarrier(_) | Done(_) => false
            case _ => true
  }

  function Released(pcs: seq<Pc>): (r: seq<Pc>)
    ensures |r| == |pcs|
  {
    seq(|pcs|, i requires 0 <= i < |pcs| =>
      match pcs[i]
      case AtFirstBarrier => Ask
      case AtSecondBarrier(g) => ReleaseFirst(g)
      case pc => pc)
  }

  ghost function Arrive(c: Config, s: State, i: nat, waiting: Pc): State
    requires i < |s.pcs|
  {
    var pcs := s.pcs[i := waiting];
    if s.arrived + 1 == |c.transfers| then s.(pcs := Released(pcs), arrived := 0)
    else s.(pcs := pcs, arrived := s.arrived + 1)
  }

  ghost function Do(c: Config, s: State, a: Action): State
    requires Enabled(c, s, a)
  {
    match a
    case Tick(ms) => s.(now := s.now + ms)
    case TimeOut(i) => s.(pcs := s.pcs[i := if c.useBarrier then MeetAgain(true) else ReleaseFirst(true)])
    case Step(i) =>
      match s.pcs[i]
      case First =>
        s.(owner := s.owner[c.transfers[i].first := Held(i)], pcs := s.pcs[i := if c.useBarrier then Meet else Ask])
      case Meet => Arrive(c, s, i, AtFirstBarrier)
      case Ask => s.(pcs := s.pcs[i := Asking(s.now + LIMIT_MS)])
      case Asking(_) => s.(owner := s.owner[c.transfers[i].second := Held(i)], pcs := s.pcs[i := GotSecond])
      case GotSecond =>
        s.(owner := s.owner[c.transfers[i].second := Free],
           pcs := s.pcs[i := if c.useBarrier then MeetAgain(false) else ReleaseFirst(false)])
      case MeetAgain(g) => Arrive(c, s, i, AtSecondBarrier(g))
      case ReleaseFirst(g) => s.(owner := s.owner[c.transfers[i].first := Free], pcs := s.pcs[i := Done(g)])
  }

  ghost function Init(c: Config): State {
    State(seq(c.locks, _ => Free), seq(|c.transfers|, _ => First), 0, 0)
  }

  ghost predicate Run(c: Config, tr: seq<State>, acts: seq<Action>) {
    && WellFormed(c)
    && |tr| == |acts| + 1
    && (exists now :: tr[0] == Init(c).(now := now))
    && forall k :: 0 <= k < |acts| ==> Enabled(c, tr[k], acts[k]) && tr[k + 1] == Do(c, tr[k], acts[k])
  }

  ghost predicate AllDone(s: State) { forall i :: 0 <= i < |s.pcs| ==> s.pcs[i].Done? }

  // ---- Opposite order: every thread wants what its neighbour holds ----

  /** A circle of n threads and n locks; for n = 2 this is the demo's opposite order. */
  function Circle(n: nat): Config {
    Config(n, seq(n, i requires 0 <= i < n => Transfer(i, if i + 1 == n then 0 else i + 1)), true)
  }

  /** 1 before the first meeting is over, 2 until the second one is, 3 afterwards. */
  function Phase(pc: Pc): int {
    if pc.First? || pc.Meet? || pc.AtFirstBarrier? then 1
    else if pc.ReleaseFirst? || pc.Done? then 3
    else 2
  }

  predicate Failed(pc: Pc) {
    && !pc.GotSecond?
    && ((pc.MeetAgain? || pc.AtSecondBarrier? || pc.ReleaseFirst? || pc.Done?) ==> pc.gaveUp)
  }

  function Waits(pc: Pc): int { if pc.AtFirstBarrier? || pc.AtSecondBarrier? then 1 else 0 }

  /** All threads are in the same phase, and none got its second lock. */
  ghost predicate InStep(n: nat, s: State) {
    && n >= 2 && |s.owner| == n && |s.pcs| == n
    && (forall i :: 0 <= i < n ==> Phase(s.pcs[i]) == Phase(s.pcs[0]))
    && (forall i :: 0 <= i < n ==> Failed(s.pcs[i]))
  }

  /** Each thread owns its first lock and nothing else. */
  ghost predicate OwnsFirst(n: nat, s: State) {
    && |s.owner| == n && |s.pcs| == n
    && forall i :: 0 <= i < n ==> s.owner[i] == if s.pcs[i].First? || s.pcs[i].Done? then Free else Held(i)
  }

  ghost predicate Counted(n: nat, s: State) {
    |s.pcs| == n && s.arrived == Total(Waits, s.pcs) < n
  }

  ghost predicate CircleInv(n: nat, s: State) {
    InStep(n, s) && OwnsFirst(n, s) && Counted(n, s)
  }

  lemma ArriveKeepsCircle(n: nat, s: State, i: nat, waiting: Pc)
    requires CircleInv(n, s) && i < n
    requires (s.pcs[i].Meet? && waiting.AtFirstBarrier?)
          || (s.pcs[i].MeetAgain? && waiting == AtSecondBarrier(s.pcs[i].gaveUp))
    ensures CircleInv(n, Arrive(Circle(n), s, i, waiting))
  {
    var pcs := s.pcs[i := waiting];
    TotalUpdate(Waits, s.pcs, i, waiting);
    if s.arrived + 1 == n {
      TotalAtMost(Waits, pcs, 1);
      ReleaseKeepsStep(n, s.(pcs := pcs));
    }
  }

  lemma ReleaseKeepsStep(n: nat, s: State)
    requires InStep(n, s) && OwnsFirst(n, s)
    requires forall j :: 0 <= j < n ==> Waits(s.pcs[j]) == 1
    ensures CircleInv(n, s.(pcs := Released(s.pcs), arrived := 0))
  {
    TotalUniform(Waits, Released(s.pcs), 0);
  }

  lemma OwnStepKeepsCircle(n: nat, s: State, i: nat, pc: Pc, owner: Owner)
    requires CircleInv(n, s) && i < n
    requires Phase(pc) == Phase(s.pcs[i]) && Failed(pc) && Waits(pc) == 0 && Waits(s.pcs[i]) == 0
    requires owner == if pc.First? || pc.Done? then Free else Held(i)
    ensures CircleInv(n, s.(pcs := s.pcs[i := pc], owner := s.owner[i := owner]))
  {
    TotalUpdate(Waits, s.pcs, i, pc);
  }

  lemma StepKeepsCircle(n: nat, s: State, a: Action)
    requires CircleInv(n, s) && Enabled(Circle(n), s, a)
    ensures CircleInv(n, Do(Circle(n), s, a))
  {
    if a.Tick? {
    } else if s.pcs[a.id].Meet? {
      ArriveKeepsCircle(n, s, a.id, AtFirstBarrier);
    } else if s.pcs[a.id].MeetAgain? {
      ArriveKeepsCircle(n, s, a.id, AtSecondBarrier(s.pcs[a.id].gaveUp));
    } else {
      assert !(a.Step? && s.pcs[a.id].Asking?) by {
        var second := Circle(n).transfers[a.id].second;
        assert Phase(s.pcs[second]) == Phase(s.pcs[a.id]);
      }
      var s' := Do(Circle(n), s, a);
      OwnStepKeepsCircle(n, s, a.id, s'.pcs[a.id], s'.owner[a.id]);
      assert s'.owner == s.owner[a.id := s'.owner[a.id]];
    }
  }

  lemma {:induction false} CircleRunInv(n: nat, tr: seq<State>, acts: seq<Action>, k: nat)
    requires n >= 2 && Run(Circle(n), tr, acts) && k < |tr|
    ensures CircleInv(n, tr[k])
  {
    if k == 0 {
      TotalUniform(Waits, tr[0].pcs, 0);
    } else {
      CircleRunInv(n, tr, acts, k - 1);
      StepKeepsCircle(n, tr[k - 1], acts[k - 1]);
    }
  }

  /** In a circle nobody ever gets the second lock, whatever the timing. */
  lemma NobodyGetsSecond(n: nat, tr: seq<State>, acts: seq<Action>, k: nat, i: nat)
    requires n >= 2 && Run(Circle(n), tr, acts) && k < |tr| && i < n
    ensures |tr[k].pcs| == n && tr[k].pcs[i] != GotSecond
    ensures tr[k].pcs[i].Done? ==> tr[k].pcs[i].gaveUp
  {
    CircleRunInv(n, tr, acts, k);
  }

  /** The demo never hangs: until all are done, a thread can step, give up, or only waits for its deadline. */
  lemma CircleGoesOn(n: nat, tr: seq<State>, acts: seq<Action>, k: nat)
    requires n >= 2 && Run(Circle(n), tr, acts) && k < |tr| && !AllDone(tr[k])
    ensures exists i :: 0 <= i < n &&
              (Enabled(Circle(n), tr[k], Step(i)) || Enabled(Circle(n), tr[k], TimeOut(i))
               || (|tr[k].pcs| == n && tr[k].pcs[i].Asking? && tr[k].now < tr[k].pcs[i].deadline))
  {
    CircleRunInv(n, tr, acts, k);
    var s := tr[k];
    if forall i :: 0 <= i < n ==> Waits(s.pcs[i]) == 1 {
      TotalUniform(Waits, s.pcs, 1);
      assert false;
    }
    var i :| 0 <= i < n && Waits(s.pcs[i]) == 0 && !s.pcs[i].Done?;
    assert Sized(Circle(n), s);
    if s.pcs[i].Asking? && s.now >= s.pcs[i].deadline {
      assert Enabled(Circle(n), s, TimeOut(i));
    } else if !s.pcs[i].Asking? {
      assert Enabled(Circle(n), s, Step(i));
    }
  }

  function Weight(pc: Pc): int {
    match pc
    case First => 9
    case Meet => 8
    case AtFirstBarrier => 7
    case Ask => 6
    case Asking(_) => 5
    case GotSecond => 4
    case MeetAgain(_) => 3
    case AtSecondBarrier(_) => 2
    case ReleaseFirst(_) => 1
    case Done(_) => 0
  }

  /** Every step of a thread brings it, and nobody else, closer to the end or leaves the others there. */
  lemma WeightDrops(c: Config, s: State, a: Action)
    requires Enabled(c, s, a) && !a.Tick?
    ensures Total(Weight, Do(c, s, a).pcs) < Total(Weight, s.pcs)
  {
    var i := a.id;
    TotalDrops(Weight, s.pcs, Do(c, s, a).pcs, i);
  }

  function Moves(acts: seq<Action>): nat {
    if acts == [] then 0 else Moves(acts[..|acts| - 1]) + if acts[|acts| - 1].Tick? then 0 else 1
  }

  lemma {:induction false} MovesAreBounded(c: Config, tr: seq<State>, acts: seq<Action>, k: nat)
    requires Run(c, tr, acts) && k < |tr|
    ensures Moves(acts[..k]) + Total(Weight, tr[k].pcs) <= 9 * |c.transfers|
  {
    if k == 0 {
      TotalUniform(Weight, tr[0].pcs, 9);
    } else {
      MovesAreBounded(c, tr, acts, k - 1);
      assert acts[..k][..k - 1] == acts[..k - 1];
      if !acts[k - 1].Tick? {
        WeightDrops(c, tr[k - 1], acts[k - 1]);
      }
    }
  }

  /** Apart from the clock, no run of any configuration has more than nine steps per thread. */
  lemma RunsAreBounded(c: Config, tr: seq<State>, acts: seq<Action>)
    requires Run(c, tr, acts)
    ensures Moves(acts) <= 9 * |c.transfers|
  {
    MovesAreBounded(c, tr, acts, |acts|);
    assert acts[..|acts|] == acts;
    TotalNonNegative(Weight, tr[|acts|].pcs);
  }

  /** When all are done, all have given up and every lock is free again. */
  lemma CircleEnds(n: nat, tr: seq<State>, acts: seq<Action>, k: nat)
    requires n >= 2 && Run(Circle(n), tr, acts) && k < |tr| && AllDone(tr[k])
    ensures |tr[k].owner| == n && |tr[k].pcs| == n
    ensures forall i :: 0 <= i < n ==> tr[k].pcs[i] == Done(true) && tr[k].owner[i] == Free
  {
    CircleRunInv(n, tr, acts, k);
  }

  // ---- How long whoever gives up has waited ----

  lemma OthersStayAsking(c: Config, s: State, a: Action, i: nat)
    requires Enabled(c, s, a) && i < |s.pcs|
    ensures var s' := Do(c, s, a);
            |s'.pcs| == |s.pcs| && s'.now >= s.now
            && (s'.pcs[i].Asking? ==> s'.pcs[i] == s.pcs[i] || (a == Step(i) && s.pcs[i].Ask? && s'.pcs[i].deadline == s.now + LIMIT_MS))
  {
  }

  /** Whoever is asking asked at some step, and its deadline is one second after. */
  lemma {:induction false} AskedBefore(c: Config, tr: seq<State>, acts: seq<Action>, k: nat, i: nat) returns (j: nat)
    requires Run(c, tr, acts) && k < |tr| && i < |tr[k].pcs| && tr[k].pcs[i].Asking?
    ensures j < k && i < |tr[j].pcs| && tr[j].pcs[i].Ask? && acts[j] == Step(i)
    ensures tr[k].pcs[i].deadline == tr[j].now + 1000
    ensures forall m :: j < m <= k ==> i < |tr[m].pcs| && tr[m].pcs[i] == tr[k].pcs[i]
  {
    j := k - 1;
    OthersStayAsking(c, tr[j], acts[j], i);
    if tr[j].pcs[i] == tr[k].pcs[i] {
      j := AskedBefore(c, tr, acts, j, i);
    }
  }

  /** In every run, whoever gives up asked for its second lock and then waited for it, for a second at least. */
  lemma GivesUpAfterASecond(c: Config, tr: seq<State>, acts: seq<Action>, k: nat, i: nat) returns (j: nat)
    requires Run(c, tr, acts) && k < |acts| && acts[k] == TimeOut(i)
    ensures j < k && i < |tr[j].pcs| && tr[j].pcs[i].Ask? && acts[j] == Step(i)
    ensures forall m :: j < m <= k ==> i < |tr[m].pcs| && tr[m].pcs[i].Asking?
    ensures tr[k].now - tr[j].now >= 1000
    ensures Sized(c, tr[k]) && tr[k].owner[c.transfers[i].second] != Free
  {
    assert Enabled(c, tr[k], acts[k]);
    j := AskedBefore(c, tr, acts, k, i);
  }

  // ---- A global lock order ----

  predicate HoldsFirst(pc: Pc) { !pc.First? && !pc.Done? }

  /** Thread i, standing at pc, owns lock l. */
  predicate Owns(t: Transfer, pc: Pc, l: nat) {
    (t.first == l && HoldsFirst(pc)) || (t.second == l && pc.GotSecond?)
  }

  /** Without barriers, who owns what is a matter of where each thread stands. */
  ghost predicate Ownership(c: Config, s: State) {
    && Sized(c, s)
    && (forall i :: 0 <= i < |s.pcs| ==> Plain(s.pcs[i]))
    && (forall i, l :: 0 <= i < |s.pcs| && 0 <= l < c.locks && Owns(c.transfers[i], s.pcs[i], l) ==> s.owner[l] == Held(i))
    && (forall l :: 0 <= l < c.locks && s.owner[l].Held? ==>
          s.owner[l].id < |s.pcs| && Owns(c.transfers[s.owner[l].id], s.pcs[s.owner[l].id], l))
  }

  ghost predicate Ordered(c: Config) {
    forall i :: 0 <= i < |c.transfers| ==> c.transfers[i].first < c.transfers[i].second
  }

  predicate Plain(pc: Pc) {
    pc.First? || pc.Ask? || pc.Asking? || pc.GotSecond? || pc.ReleaseFirst? || pc.Done?
  }

  /** A thread moves, taking only locks that are free and giving back what it no longer owns. */
  lemma MoveKeepsOwnership(c: Config, s: State, i: nat, pc: Pc, owner: seq<Owner>)
    requires Ownership(c, s) && i < |s.pcs| && Plain(pc) && |owner| == c.locks
    requires forall l :: 0 <= l < c.locks ==>
      owner[l] == if Owns(c.transfers[i], pc, l) then Held(i)
                  else if Owns(c.transfers[i], s.pcs[i], l) then Free
                  else s.owner[l]
    requires forall l :: 0 <= l < c.locks && s.owner[l] != Free ==>
      (Owns(c.transfers[i], pc, l) ==> Owns(c.transfers[i], s.pcs[i], l))
    ensures Ownership(c, s.(pcs := s.pcs[i := pc], owner := owner))
  {
  }

  lemma StepKeepsOwnership(c: Config, s: State, a: Action)
    requires Ownership(c, s) && Enabled(c, s, a) && !c.useBarrier && Ordered(c)
    ensures Ownership(c, Do(c, s, a))
  {
    if !a.Tick? {
      var s' := Do(c, s, a);
      MoveKeepsOwnership(c, s, a.id, s'.pcs[a.id], s'.owner);
    }
  }

  lemma {:induction false} OwnershipInv(c: Config, tr: seq<State>, acts: seq<Action>, k: nat)
    requires Run(c, tr, acts) && k < |tr| && !c.useBarrier && Ordered(c)
    ensures Ownership(c, tr[k])
  {
    if k > 0 {
      OwnershipInv(c, tr, acts, k - 1);
      StepKeepsOwnership(c, tr[k - 1], acts[k - 1]);
    }
  }

  /** Same order, any number of threads: whoever asks for the second lock finds it free, and nobody gives up. */
  lemma SecondIsFree(c: Config, tr: seq<State>, acts: seq<Action>, k: nat, i: nat)
    requires Run(c, tr, acts) && k < |tr| && !c.useBarrier && i < |c.transfers|
    requires forall j :: 0 <= j < |c.transfers| ==> c.transfers[j] == Transfer(0, 1)
    ensures Sized(c, tr[k]) && c.locks >= 2
    ensures tr[k].pcs[i].Ask? || tr[k].pcs[i].Asking? ==> tr[k].owner[1] == Free
    ensures !Enabled(c, tr[k], TimeOut(i))
  {
    OwnershipInv(c, tr, acts, k);
    var s := tr[k];
    assert c.transfers[i] == Transfer(0, 1);
    assert HoldsFirst(s.pcs[i]) ==> Owns(c.transfers[i], s.pcs[i], 0) && s.owner[0] == Held(i);
    if s.owner[1].Held? {
      var j := s.owner[1].id;
      assert c.transfers[j] == Transfer(0, 1) && Owns(c.transfers[j], s.pcs[j], 1);
      assert Owns(c.transfers[j], s.pcs[j], 0) && s.owner[0] == Held(j);
    }
  }

  /** The thread asking for the highest lock that anybody asks for. */
  lemma HighestAsk(c: Config, s: State, n: nat) returns (i: nat)
    requires Sized(c, s) && n <= |s.pcs|
    requires exists j :: 0 <= j < n && s.pcs[j].Asking?
    ensures i < n && s.pcs[i].Asking?
    ensures forall j :: 0 <= j < n && s.pcs[j].Asking? ==> c.transfers[j].second <= c.transfers[i].second
  {
    if exists j :: 0 <= j < n - 1 && s.pcs[j].Asking? {
      i := HighestAsk(c, s, n - 1);
      if s.pcs[n - 1].Asking? && c.transfers[n - 1].second > c.transfers[i].second {
        i := n - 1;
      }
    } else {
      i := n - 1;
    }
  }

  /**
   A global lock order makes a cycle impossible: for any threads and locks, if each takes the lower
   one first, some thread can go on without anybody giving up.
   */
  lemma OrderedNeverStuck(c: Config, tr: seq<State>, acts: seq<Action>, k: nat)
    requires Run(c, tr, acts) && k < |tr| && !c.useBarrier && Ordered(c) && !AllDone(tr[k])
    ensures exists i :: Enabled(c, tr[k], Step(i))
  {
    OwnershipInv(c, tr, acts, k);
    var s := tr[k];
    if exists j :: 0 <= j < |s.pcs| && s.pcs[j].Asking? {
      var i := HighestAsk(c, s, |s.pcs|);
      if s.owner[c.transfers[i].second] == Free {
        assert Enabled(c, s, Step(i));
      } else {
        assert Enabled(c, s, Step(s.owner[c.transfers[i].second].id));
      }
    } else {
      var i :| 0 <= i < |s.pcs| && !s.pcs[i].Done?;
      if s.pcs[i].First? && s.owner[c.transfers[i].first] != Free {
        assert Enabled(c, s, Step(s.owner[c.transfers[i].first].id));
      } else {
        assert Enabled(c, s, Step(i));
      }
    }
  }
}
