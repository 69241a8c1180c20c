/**
 Part 4 of demo/threadsync.c: any number of visitors share a counting semaphore, count themselves
 in and out with atomic adds, and keep a running maximum with a weak compare-and-swap loop that may
 fail for no reason.
 */
module SemaphoreMax {
  import opened Tally

  datatype Config = Config(permits: nat, visitors: nat)

  /** `mine` is the value of `inside` a visitor computed, `most` its local copy of the maximum. */
  datatype Pc =
    | Waiting
    | Entering
    | Loading(mine: int)
    | Comparing(mine: int, most: int)
    | Visiting(mine: int)
    | Posting(mine: int)
    | Gone(mine: int)

  datatype State = State(permits: int, inside: int, most: int, pcs: seq<Pc>)

  datatype Action = Step(id: nat) | SpuriousFailure(id: nat)

  ghost predicate Enabled(s: State, a: Action) {
    && a.id < |s.pcs|
    && match a
       case Step(id) => !s.pcs[id].Gone? && (s.pcs[id].Waiting? ==> s.permits > 0)
       case SpuriousFailure(id) => s.pcs[id].Comparing? && s.pcs[id].mine > s.pcs[id].most
  }

  ghost function Do(s: State, a: Action): State
    requires Enabled(s, a)
  {
    var id := a.id;
    match s.pcs[id]
    case Waiting => s.(permits := s.permits - 1, pcs := s.pcs[id := Entering])
    case Entering => s.(inside := s.inside + 1, pcs := s.pcs[id := Loading(s.inside + 1)])
    case Loading(mine) => s.(pcs := s.pcs[id := Comparing(mine, s.most)])
    case Comparing(mine, most) =>
      if mine <= most then s.(pcs := s.pcs[id := Visiting(mine)])
      else if a.Step? && s.most == most then s.(most := mine, pcs := s.pcs[id := Visiting(mine)])
      else s.(pcs := s.pcs[id := Comparing(mine, s.most)])
    case Visiting(mine) => s.(inside := s.inside - 1, pcs := s.pcs[id := Posting(mine)])
    case Posting(mine) => s.(permits := s.permits + 1, pcs := s.pcs[id := Gone(mine)])
  }

  ghost function Init(c: Config): State {
    State(c.permits, 0, 0, seq(c.visitors, _ => Waiting))
  }

  ghost predicate Run(c: Config, tr: seq<State>, acts: seq<Action>) {
    && |tr| == |acts| + 1
    && tr[0] == Init(c)
    && forall i :: 0 <= i < |acts| ==> Enabled(tr[i], acts[i]) && tr[i + 1] == Do(tr[i], acts[i])
  }

  // ---- The invariant ----

  predicate Observed(pc: Pc) { !pc.Waiting? && !pc.Entering? }

  function Holding(pc: Pc): int { if pc.Waiting? || pc.Gone? then 0 else 1 }

  function Inside(pc: Pc): int { if pc.Loading? || pc.Comparing? || pc.Visiting? then 1 else 0 }

  function Passing(pc: Pc): int { if pc.Entering? || pc.Posting? then 1 else 0 }

  ghost predicate Permits(c: Config, s: State) {
    && |s.pcs| == c.visitors
    && s.permits >= 0
    && s.permits + Total(Holding, s.pcs) == c.permits
    && s.inside == Total(Inside, s.pcs)
    && Total(Inside, s.pcs) + Total(Passing, s.pcs) == Total(Holding, s.pcs)
  }

  /** Whoever is past the loop is covered by the maximum. */
  ghost predicate Covered(c: Config, s: State) {
    && 0 <= s.most <= c.permits
    && (forall i :: 0 <= i < |s.pcs| && Observed(s.pcs[i]) ==> 1 <= s.pcs[i].mine <= c.permits)
    && (forall i :: 0 <= i < |s.pcs| && s.pcs[i].Comparing? ==> s.pcs[i].most <= s.most)
    && (forall i :: 0 <= i < |s.pcs| && (s.pcs[i].Visiting? || s.pcs[i].Posting? || s.pcs[i].Gone?)
          ==> s.pcs[i].mine <= s.most)
  }

  /** The maximum was somebody's. */
  ghost predicate Attained(s: State) {
    s.most == 0 || exists i :: 0 <= i < |s.pcs| && Observed(s.pcs[i]) && s.pcs[i].mine == s.most
  }

  ghost predicate Maximum(c: Config, s: State) { Covered(c, s) && Attained(s) }

  lemma StepKeepsPermits(c: Config, s: State, a: Action)
    requires Permits(c, s) && Enabled(s, a)
    ensures Permits(c, Do(s, a))
  {
    var pc := Do(s, a).pcs[a.id];
    TotalUpdate(Holding, s.pcs, a.id, pc);
    TotalUpdate(Inside, s.pcs, a.id, pc);
    TotalUpdate(Passing, s.pcs, a.id, pc);
  }

  /** Whoever has a permit and is not counted yet finds fewer inside than there are permits. */
  lemma RoomToEnter(c: Config, s: State, i: nat)
    requires Permits(c, s) && i < |s.pcs| && s.pcs[i].Entering?
    ensures 0 <= s.inside < c.permits
  {
    TotalNonNegative(Passing, s.pcs);
    TotalNonNegative(Inside, s.pcs);
  }

  lemma MoveKeepsCovered(c: Config, s: State, a: Action)
    requires Covered(c, s) && Enabled(s, a) && (s.pcs[a.id].Entering? ==> 0 <= s.inside < c.permits)
    ensures Covered(c, Do(s, a)) && s.most <= Do(s, a).most
  {
  }

  lemma StepKeepsCovered(c: Config, s: State, a: Action)
    requires Permits(c, s) && Covered(c, s) && Enabled(s, a)
    ensures Covered(c, Do(s, a)) && s.most <= Do(s, a).most
  {
    if s.pcs[a.id].Entering? {
      RoomToEnter(c, s, a.id);
    }
    MoveKeepsCovered(c, s, a);
  }

  lemma StepKeepsAttained(s: State, a: Action)
    requires Attained(s) && Enabled(s, a)
    ensures Attained(Do(s, a))
  {
    var s' := Do(s, a);
    if s'.most == s.most && s.most != 0 {
      var i :| 0 <= i < |s.pcs| && Observed(s.pcs[i]) && s.pcs[i].mine == s.most;
      assert Observed(s'.pcs[i]) && s'.pcs[i].mine == s'.most;
    } else if s'.most != s.most {
      assert Observed(s'.pcs[a.id]) && s'.pcs[a.id].mine == s'.most;
    }
  }

  lemma StepKeepsMaximum(c: Config, s: State, a: Action)
    requires Permits(c, s) && Maximum(c, s) && Enabled(s, a)
    ensures Maximum(c, Do(s, a)) && s.most <= Do(s, a).most
  {
    StepKeepsCovered(c, s, a);
    StepKeepsAttained(s, a);
  }

  lemma {:induction false} RunInv(c: Config, tr: seq<State>, acts: seq<Action>, n: nat)
    requires Run(c, tr, acts) && n < |tr|
    ensures Permits(c, tr[n]) && Maximum(c, tr[n])
  {
    if n == 0 {
      TotalUniform(Holding, tr[0].pcs, 0);
      TotalUniform(Inside, tr[0].pcs, 0);
      TotalUniform(Passing, tr[0].pcs, 0);
    } else {
      RunInv(c, tr, acts, n - 1);
      StepKeepsPermits(c, tr[n - 1], acts[n - 1]);
      StepKeepsMaximum(c, tr[n - 1], acts[n - 1]);
    }
  }

  // ---- The properties ----

  /** Permits are conserved, and the count of visitors inside never exceeds them. */
  lemma NeverTooMany(c: Config, tr: seq<State>, acts: seq<Action>, n: nat)
    requires Run(c, tr, acts) && n < |tr|
    ensures tr[n].permits + Total(Holding, tr[n].pcs) == c.permits
    ensures 0 <= tr[n].inside <= c.permits
  {
    RunInv(c, tr, acts, n);
    TotalNonNegative(Inside, tr[n].pcs);
    TotalNonNegative(Passing, tr[n].pcs);
  }

  lemma {:induction false} MaximumNeverDrops(c: Config, tr: seq<State>, acts: seq<Action>, m: nat, n: nat)
    requires Run(c, tr, acts) && m <= n < |tr|
    ensures tr[m].most <= tr[n].most
  {
    if m < n {
      MaximumNeverDrops(c, tr, acts, m, n - 1);
      RunInv(c, tr, acts, n - 1);
      StepKeepsMaximum(c, tr[n - 1], acts[n - 1]);
    }
  }

  /** Some visitor saw at least the number that was inside at any moment so far. */
  ghost predicate Witnessed(s: State, inside: int) {
    inside <= 0 || exists i :: 0 <= i < |s.pcs| && Observed(s.pcs[i]) && s.pcs[i].mine >= inside
  }

  lemma StepKeepsWitness(s: State, a: Action, inside: int)
    requires Enabled(s, a) && Witnessed(s, inside)
    ensures Witnessed(Do(s, a), inside)
  {
    if inside > 0 {
      var i :| 0 <= i < |s.pcs| && Observed(s.pcs[i]) && s.pcs[i].mine >= inside;
      assert Observed(Do(s, a).pcs[i]) && Do(s, a).pcs[i].mine >= inside;
    }
  }

  lemma {:induction false} PeakIsWitnessed(c: Config, tr: seq<State>, acts: seq<Action>, m: nat, n: nat)
    requires Run(c, tr, acts) && m <= n < |tr|
    ensures Witnessed(tr[n], tr[m].inside)
    decreases n, m
  {
    if m < n {
      PeakIsWitnessed(c, tr, acts, m, n - 1);
      StepKeepsWitness(tr[n - 1], acts[n - 1], tr[m].inside);
    } else if n > 0 {
      PeakIsWitnessed(c, tr, acts, n - 1, n - 1);
      StepKeepsWitness(tr[n - 1], acts[n - 1], tr[n - 1].inside);
      if tr[n].inside > tr[n - 1].inside {
        assert tr[n].pcs[acts[n - 1].id].mine >= tr[n].inside;
      }
    }
  }

  ghost predicate AllGone(s: State) { forall i :: 0 <= i < |s.pcs| ==> s.pcs[i].Gone? }

  /**
   Once every visitor has left, the maximum is the largest value any of them observed, and it is
   also the most that were inside at any moment of the run.
   */
  lemma MaximumIsExact(c: Config, tr: seq<State>, acts: seq<Action>)
    requires Run(c, tr, acts) && AllGone(tr[|acts|])
    ensures var s := tr[|acts|];
            && (forall i :: 0 <= i < |s.pcs| ==> s.pcs[i].mine <= s.most)
            && (c.visitors > 0 ==> exists i :: 0 <= i < |s.pcs| && s.pcs[i].mine == s.most)
            && (forall m :: 0 <= m < |tr| ==> tr[m].inside <= s.most)
            && s.permits == c.permits && s.inside == 0
  {
    var s := tr[|acts|];
    RunInv(c, tr, acts, |acts|);
    TotalUniform(Holding, s.pcs, 0);
    TotalUniform(Inside, s.pcs, 0);
    if c.visitors > 0 {
      assert s.pcs[0].mine >= 1;
    }
    forall m | 0 <= m < |tr|
      ensures tr[m].inside <= s.most
    {
      PeakIsWitnessed(c, tr, acts, m, |acts|);
    }
  }

  /** With at least one permit, somebody can always go on. */
  lemma DeadlockFree(c: Config, tr: seq<State>, acts: seq<Action>, n: nat)
    requires Run(c, tr, acts) && n < |tr| && c.permits >= 1 && !AllGone(tr[n])
    ensures exists i :: Enabled(tr[n], Step(i))
  {
    RunInv(c, tr, acts, n);
    var s := tr[n];
    var i :| 0 <= i < |s.pcs| && !s.pcs[i].Gone?;
    if j :| 0 <= j < |s.pcs| && Holding(s.pcs[j]) == 1 {
      assert Enabled(s, Step(j));
    } else {
      TotalUniform(Holding, s.pcs, 0);
      assert Enabled(s, Step(i));
    }
  }

  // ---- Lock freedom ----

  function Weight(pc: Pc): int {
    match pc
    case Waiting => 7
    case Entering => 6
    case Loading(_) => 5
    case Comparing(_, _) => 3
    case Visiting(_) => 2
    case Posting(_) => 1
    case Gone(_) => 0
  }

  /** 1 for a visitor whose copy of the maximum is out of date, so that its next exchange must fail. */
  function Stale(most: int): Pc -> int {
    (pc: Pc) => if pc.Comparing? && pc.most != most then 1 else 0
  }

  ghost function Measure(c: Config, s: State): int {
    Total(Weight, s.pcs) + Total(Stale(s.most), s.pcs) + (c.permits - s.most) * (c.visitors + 1)
  }

  lemma MeasureDrops(c: Config, s: State, a: Action)
    requires Permits(c, s) && Maximum(c, s) && Enabled(s, a)
    ensures Measure(c, Do(s, a)) <= Measure(c, s) - if a.Step? then 1 else 0
  {
    var s' := Do(s, a);
    TotalUpdate(Weight, s.pcs, a.id, s'.pcs[a.id]);
    TotalUpdate(Stale(s.most), s.pcs, a.id, s'.pcs[a.id]);
    if s'.most != s.most {
      RaisePays(c, s.most, s'.most);
      TotalAtMost(Stale(s'.most), s'.pcs, 1);
      TotalNonNegative(Stale(s.most), s.pcs);
    }
  }

  lemma AtLeast(k: nat, n: nat)
    requires k >= 1
    ensures k * n >= n
  {
  }

  lemma RaisePays(c: Config, most: int, most': int)
    requires most < most'
    ensures (c.permits - most') * (c.visitors + 1) + c.visitors + 1 <= (c.permits - most) * (c.visitors + 1)
  {
    var n := c.visitors + 1;
    AtLeast(most' - most, n);
    calc {
      (c.permits - most) * n;
      ((c.permits - most') + (most' - most)) * n;
      (c.permits - most') * n + (most' - most) * n;
    }
  }

  function FailureCount(acts: seq<Action>): nat {
    if acts == [] then 0
    else FailureCount(acts[..|acts| - 1]) + if acts[|acts| - 1].SpuriousFailure? then 1 else 0
  }

  lemma {:induction false} MeasureOfRun(c: Config, tr: seq<State>, acts: seq<Action>, n: nat)
    requires Run(c, tr, acts) && n < |tr|
    ensures n + Measure(c, tr[n]) <= Measure(c, tr[0]) + FailureCount(acts[..n])
  {
    if n > 0 {
      MeasureOfRun(c, tr, acts, n - 1);
      RunInv(c, tr, acts, n - 1);
      MeasureDrops(c, tr[n - 1], acts[n - 1]);
      assert acts[..n][..n - 1] == acts[..n - 1];
    }
  }

  lemma ProductNonNegative(a: int, b: int)
    requires a >= 0 && b >= 0
    ensures a * b >= 0
  {
  }

  lemma MeasureNonNegative(c: Config, s: State)
    requires Permits(c, s) && Maximum(c, s)
    ensures Measure(c, s) >= 0
  {
    TotalNonNegative(Weight, s.pcs);
    TotalNonNegative(Stale(s.most), s.pcs);
    ProductNonNegative(c.permits - s.most, c.visitors + 1);
  }

  /**
   Contention alone cannot keep the exchange loop going: apart from spurious failures, the steps of
   any run are bounded by a constant.
   */
  lemma RunsAreBounded(c: Config, tr: seq<State>, acts: seq<Action>)
    requires Run(c, tr, acts)
    ensures |acts| <= 7 * c.visitors + c.permits * (c.visitors + 1) + FailureCount(acts)
  {
    var n := |acts|;
    assert acts[..n] == acts;
    MeasureOfRun(c, tr, acts, n);
    RunInv(c, tr, acts, n);
    MeasureNonNegative(c, tr[n]);
    TotalUniform(Weight, tr[0].pcs, 7);
    TotalUniform(Stale(0), tr[0].pcs, 0);
  }
}
