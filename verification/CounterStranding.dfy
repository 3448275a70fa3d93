/**
 Nothing is stranded. In every interleaving in which no two goroutines are at once between the loads
 and the compare-and-swap of latch on the same counter, a counter outside the map that still owes
 something has a goroutine obliged to it.
 */
module CounterStranding {
  import opened Word64
  import opened CounterProtocol
  import opened CounterOrphans

  predicate InWindow(pc: Pc, c: nat) {
    (pc.Loaded? || pc.Ready?) && pc.c == c
  }

  predicate Alone(s: State, c: nat) {
    forall u: nat :: u < |s.pcs| ==> !InWindow(s.pcs[u], c)
  }

  /** The rule that a latch of a counter starts only when no other latch of it is under way. */
  const SOLO: (State, Step) -> bool := (s: State, a: Step) => a.LoadCurrent? && Can(s, a) ==> Alone(s, s.pcs[a.t].c)

  /** A goroutine still to look at what counter c owes. */
  predicate Early(pc: Pc, c: nat) {
    pc == Touched(c) || pc == Joining(c) || pc == Marking(c) || (pc.Latching? && pc.c == c && pc.goal != Report)
  }

  predicate HasEarly(s: State, c: nat) {
    exists t: nat :: t < |s.pcs| && Early(s.pcs[t], c)
  }

  /** A latch of c is under way that has read all c counted. */
  predicate HasLatest(s: State, c: nat)
    requires c < |s.objs|
  {
    exists t: nat :: t < |s.pcs| && InWindow(s.pcs[t], c) && s.pcs[t].value == s.objs[c].current
  }

  predicate Settled(s: State, c: nat)
    requires c < |s.objs|
  {
    s.objs[c].current == s.objs[c].lastSent && Alone(s, c)
  }

  predicate Covered(s: State, c: nat)
    requires c < |s.objs|
  {
    s.InMap(c) || HasEarly(s, c) || HasLatest(s, c) || Settled(s, c)
  }

  predicate Apart(s: State) {
    forall t: nat, u: nat :: t < |s.pcs| && u < |s.pcs| && t != u && (s.pcs[t].Loaded? || s.pcs[t].Ready?)
      ==> !InWindow(s.pcs[u], s.pcs[t].c)
  }

  /** A latch about to commit has seen the lastSentValue that is still there. */
  predicate Fresh(s: State) {
    forall t: nat :: t < |s.pcs| && s.pcs[t].Ready? && s.pcs[t].c < |s.objs|
      ==> s.objs[s.pcs[t].c].lastSent == s.pcs[t].lastSeen
  }

  predicate SoloInv(s: State) {
    Apart(s) && Fresh(s) && forall c: nat :: c < |s.objs| ==> Covered(s, c)
  }

  /** A goroutine comes to read by one of its two loads. */
  lemma WindowStep(s: State, a: Step)
    requires Can(s, a)
    ensures
      Goes(s, a).Loaded? || Goes(s, a).Ready? ==>
        Goes(s, a).c == s.pcs[a.t].c && (a.LoadCurrent? || (a.LoadLastSent? && s.pcs[a.t].Loaded?))
  {
  }

  lemma ApartStep(s: State, a: Step)
    requires Inv(s) && Can(s, a) && SOLO(s, a) && Apart(s)
    ensures Apart(Do(s, a))
  {
    var r := Do(s, a);
    assert r.pcs == s.pcs[a.t := Goes(s, a)];
    WindowStep(s, a);
  }

  lemma FreshStep(s: State, a: Step)
    requires Inv(s) && Can(s, a) && Apart(s) && Fresh(s)
    ensures Fresh(Do(s, a))
  {
    var r := Do(s, a);
    assert PcOk(s, a.t, s.pcs[a.t]);
    StepKeeps(s, a);
    forall t: nat | t < |r.pcs| && r.pcs[t].Ready? && r.pcs[t].c < |r.objs|
      ensures r.objs[r.pcs[t].c].lastSent == r.pcs[t].lastSeen
    {
      if t != a.t {
        assert r.pcs[t] == s.pcs[t] && PcOk(s, t, s.pcs[t]);
      }
    }
  }

  /** The counter stays in the map, or Flush has just deleted it and is obliged to it. */
  lemma InMapStep(s: State, a: Step, c: nat)
    requires Inv(s) && Can(s, a) && c < |s.objs| && s.InMap(c)
    ensures |s.objs| <= |Do(s, a).objs| && (Do(s, a).InMap(c) || Do(s, a).pcs[a.t] == Marking(c))
  {
    assert PcOk(s, a.t, s.pcs[a.t]);
    if !a.Delete? {
      StepKeeps(s, a);
    }
  }

  /** A goroutine obliged to c stays so until c is in the map again or its latch has read all c counted. */
  lemma EarlyStep(s: State, a: Step, c: nat)
    requires Inv(s) && Can(s, a) && c < |s.objs| && Early(s.pcs[a.t], c)
    ensures |s.objs| <= |Do(s, a).objs| && Covered(Do(s, a), c)
  {
    var r := Do(s, a);
    assert PcOk(s, a.t, s.pcs[a.t]) && Attached(s, c);
    assert r.pcs[a.t] == r.pcs[a.t];
    if t: nat :| t < |s.pcs| && s.pcs[t] == Marking(c) && t != a.t {
      assert r.pcs[t] == Marking(c);
    }
  }

  /** A latch that has read all c counted settles c. */
  lemma LatestStep(s: State, a: Step, c: nat)
    requires Inv(s) && Can(s, a) && Apart(s) && Fresh(s) && c < |s.objs|
    requires InWindow(s.pcs[a.t], c) && s.pcs[a.t].value == s.objs[c].current
    ensures |s.objs| <= |Do(s, a).objs| && Covered(Do(s, a), c)
  {
    var r := Do(s, a);
    assert PcOk(s, a.t, s.pcs[a.t]);
    assert r.pcs == s.pcs[a.t := r.pcs[a.t]];
    if a.LoadLastSent? && s.pcs[a.t].value != s.objs[c].lastSent {
      assert InWindow(r.pcs[a.t], c);
    } else {
      assert Settled(r, c);
    }
  }

  /** A step of another goroutine changes what c counted only by obliging itself to c. */
  lemma OtherStep(s: State, a: Step, c: nat)
    requires Inv(s) && Can(s, a) && c < |s.objs| && !InWindow(s.pcs[a.t], c)
    ensures |s.objs| <= |Do(s, a).objs|
    ensures
      Early(Do(s, a).pcs[a.t], c)
      || (Do(s, a).objs[c].current == s.objs[c].current && Do(s, a).objs[c].lastSent == s.objs[c].lastSent)
  {
    assert PcOk(s, a.t, s.pcs[a.t]);
  }

  /** Only a goroutine obliged to c, or Flush on a counter in the map, starts to latch c. */
  lemma NotStarted(s: State, a: Step, c: nat)
    requires Inv(s) && Can(s, a) && c < |s.objs| && !s.InMap(c) && !Early(s.pcs[a.t], c) && !InWindow(s.pcs[a.t], c)
    ensures !InWindow(Do(s, a).pcs[a.t], c)
  {
    assert PcOk(s, a.t, s.pcs[a.t]);
  }

  lemma CoveredByWindow(s: State, a: Step, c: nat)
    requires Inv(s) && Can(s, a) && SOLO(s, a) && Apart(s) && Fresh(s) && c < |s.objs|
    requires !s.InMap(c) && !HasEarly(s, c) && (HasLatest(s, c) || Settled(s, c))
    ensures |s.objs| <= |Do(s, a).objs| && Covered(Do(s, a), c)
  {
    var r := Do(s, a);
    assert PcOk(s, a.t, s.pcs[a.t]) && !Early(s.pcs[a.t], c);
    assert r.pcs == s.pcs[a.t := r.pcs[a.t]] by {
      StepKeeps(s, a);
    }
    if InWindow(s.pcs[a.t], c) {
      LatestStep(s, a, c);
    } else {
      OtherStep(s, a, c);
      if t: nat :| t < |s.pcs| && InWindow(s.pcs[t], c) && s.pcs[t].value == s.objs[c].current {
        assert r.pcs[t] == s.pcs[t];
      } else {
        NotStarted(s, a, c);
      }
    }
  }

  lemma CoveredStep(s: State, a: Step, c: nat)
    requires Inv(s) && Can(s, a) && SOLO(s, a) && SoloInv(s) && c < |s.objs|
    ensures |s.objs| <= |Do(s, a).objs| && Covered(Do(s, a), c)
  {
    var r := Do(s, a);
    assert Covered(s, c) && PcOk(s, a.t, s.pcs[a.t]);
    StepKeeps(s, a);
    assert r.pcs == s.pcs[a.t := r.pcs[a.t]];
    if s.InMap(c) {
      InMapStep(s, a, c);
      assert r.InMap(c) || Early(r.pcs[a.t], c);
    } else if t: nat :| t < |s.pcs| && Early(s.pcs[t], c) {
      if t == a.t {
        EarlyStep(s, a, c);
      } else {
        assert Early(r.pcs[t], c);
      }
    } else {
      CoveredByWindow(s, a, c);
    }
  }

  lemma SoloStep(s: State, a: Step)
    requires Inv(s) && Can(s, a) && SOLO(s, a) && SoloInv(s)
    ensures SoloInv(Do(s, a))
  {
    ApartStep(s, a);
    FreshStep(s, a);
    forall c: nat | c < |Do(s, a).objs|
      ensures Covered(Do(s, a), c)
    {
      if c < |s.objs| {
        CoveredStep(s, a, c);
      } else {
        assert Do(s, a).InMap(c);
      }
    }
  }

  /** The invariant after every run without overlapping latches, under SOLO or any stricter rule. */
  lemma {:induction false} SoloReached(rule: (State, Step) -> bool, s: State, run: seq<Step>)
    requires forall x, a :: rule(x, a) ==> SOLO(x, a)
    requires Inv(s) && SoloInv(s) && Exec(rule, s, run).Some?
    ensures SoloInv(Exec(rule, s, run).value)
  {
    if run != [] {
      SoloReached(rule, s, run[..|run| - 1]);
      InvReached(rule, s, run[..|run| - 1]);
      SoloStep(Exec(rule, s, run[..|run| - 1]).value, run[|run| - 1]);
    }
  }

  /** A goroutine obliged to c: it will look at what c owes, or is latching it. */
  predicate Obliged(pc: Pc, c: nat) {
    Early(pc, c) || InWindow(pc, c)
  }

  /** Nothing is stranded: an unreported delta outside the map always has a goroutine obliged to it. */
  lemma NothingStranded(pruneAfter: Uint32, threads: nat, run: seq<Step>, s: State, c: nat)
    requires Reaches(SOLO, pruneAfter, threads, run, s)
    requires c < |s.objs| && s.objs[c].current != s.objs[c].lastSent && !s.InMap(c)
    ensures exists t: nat :: t < |s.pcs| && Obliged(s.pcs[t], c)
  {
    InvInit(pruneAfter, threads);
    SoloReached(SOLO, Init(pruneAfter, threads), run);
    assert Covered(s, c);
    if t: nat :| t < |s.pcs| && Early(s.pcs[t], c) {
      assert Obliged(s.pcs[t], c);
    } else {
      var t: nat :| t < |s.pcs| && InWindow(s.pcs[t], c);
      assert Obliged(s.pcs[t], c);
    }
  }

  predicate AllIdle(s: State) {
    forall t: nat :: t < |s.pcs| ==> s.pcs[t] == Idle
  }

  /** Once all goroutines are idle, every unreported delta sits in a counter in the map. */
  lemma IdleMeansInMap(pruneAfter: Uint32, threads: nat, run: seq<Step>, s: State, c: nat)
    requires Reaches(SOLO, pruneAfter, threads, run, s)
    requires AllIdle(s) && c < |s.objs| && s.objs[c].current != s.objs[c].lastSent
    ensures s.InMap(c)
  {
    assert forall t: nat :: t < |s.pcs| ==> !Obliged(s.pcs[t], c);
    if !s.InMap(c) {
      NothingStranded(pruneAfter, threads, run, s, c);
    }
  }
}
