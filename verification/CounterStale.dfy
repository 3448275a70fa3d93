/**
 Exactly when overlapping latches do harm, in every interleaving: a run strands nothing if and only if it
 has no commit on a counter that owes nothing, is outside the map and has no goroutine left to look at it;
 and Adds are counted exactly if and only if every commit takes a value that lies between lastSentValue
 and currentValue.
 */
module CounterStale {
  import opened Word64
  import opened Sums
  import opened CounterProtocol
  import opened CounterOrphans
  import opened CounterHistory
  import opened CounterConservation
  import opened CounterStranding
  import opened CounterExact

  /** Counter c is in the map, or owes nothing, or a goroutine will look at all it owes. */
  predicate Safe(s: State, c: nat)
    requires c < |s.objs|
  {
    s.InMap(c) || HasEarly(s, c) || HasLatest(s, c) || s.objs[c].current == s.objs[c].lastSent
  }

  predicate AllSafe(s: State) {
    forall c: nat :: c < |s.objs| ==> Safe(s, c)
  }

  /** A goroutine other than t will look at all that counter c owes. */
  predicate Watched(s: State, c: nat, t: nat)
    requires c < |s.objs|
  {
    exists u: nat ::
      && u < |s.pcs| && u != t
      && (Early(s.pcs[u], c) || (InWindow(s.pcs[u], c) && s.pcs[u].value == s.objs[c].current))
  }

  /** The step commits a stale value on a counter that owes nothing and that nobody will look at again. */
  predicate Strands(s: State, a: Step) {
    && a.Commit? && Can(s, a)
    && var c := s.pcs[a.t].c;
       && s.objs[c].lastSent == s.pcs[a.t].lastSeen && s.objs[c].current == s.objs[c].lastSent
       && !s.InMap(c) && !Watched(s, c, a.t)
  }

  lemma CommitKeeps(s: State, a: Step, c: nat)
    requires Inv(s) && Can(s, a) && a.Commit? && s.pcs[a.t].c == c && Safe(s, c) && !s.InMap(c)
    ensures |Do(s, a).objs| == |s.objs| && (Safe(Do(s, a), c) <==> !Strands(s, a))
  {
    var r := Do(s, a);
    assert PcOk(s, a.t, s.pcs[a.t]) && r.pcs == s.pcs[a.t := r.pcs[a.t]];
    if u: nat :|
      && u < |s.pcs| && u != a.t
      && (Early(s.pcs[u], c) || (InWindow(s.pcs[u], c) && s.pcs[u].value == s.objs[c].current))
    {
      assert r.pcs[u] == s.pcs[u];
    } else if s.objs[c].lastSent != s.pcs[a.t].lastSeen {
      assert Early(r.pcs[a.t], c);
    }
  }

  lemma OthersKeep(s: State, a: Step, c: nat)
    requires Inv(s) && Can(s, a) && c < |s.objs| && Safe(s, c) && !s.InMap(c)
    requires !InWindow(s.pcs[a.t], c) && !Early(s.pcs[a.t], c)
    ensures |s.objs| <= |Do(s, a).objs| && Safe(Do(s, a), c)
  {
    var r := Do(s, a);
    OtherStep(s, a, c);
    StepKeeps(s, a) by {
      assert PcOk(s, a.t, s.pcs[a.t]);
    }
    if t: nat :| t < |s.pcs| && (Early(s.pcs[t], c) || (InWindow(s.pcs[t], c) && s.pcs[t].value == s.objs[c].current)) {
      assert r.pcs[t] == s.pcs[t];
    }
  }

  lemma LoadKeeps(s: State, a: Step, c: nat)
    requires Inv(s) && Can(s, a) && a.LoadLastSent? && s.pcs[a.t].c == c && Safe(s, c) && !s.InMap(c)
    ensures |s.objs| <= |Do(s, a).objs| && Safe(Do(s, a), c)
  {
    var r := Do(s, a);
    assert PcOk(s, a.t, s.pcs[a.t]);
    StepKeeps(s, a);
    assert r.pcs == s.pcs[a.t := r.pcs[a.t]];
    if u: nat :|
      && u < |s.pcs| && u != a.t
      && (Early(s.pcs[u], c) || (InWindow(s.pcs[u], c) && s.pcs[u].value == s.objs[c].current))
    {
      assert r.pcs[u] == s.pcs[u];
    } else if s.pcs[a.t].value != s.objs[c].lastSent {
      assert r.pcs[a.t].Ready?;
    }
  }

  lemma SafeStep(s: State, a: Step, c: nat)
    requires Inv(s) && Can(s, a) && c < |s.objs| && Safe(s, c)
    ensures |s.objs| <= |Do(s, a).objs| && (Safe(Do(s, a), c) <==> !(Strands(s, a) && s.pcs[a.t].c == c))
  {
    assert PcOk(s, a.t, s.pcs[a.t]);
    if s.InMap(c) {
      InMapStep(s, a, c);
      assert Do(s, a).InMap(c) || Early(Do(s, a).pcs[a.t], c);
    } else if Early(s.pcs[a.t], c) {
      EarlyStep(s, a, c);
    } else if !InWindow(s.pcs[a.t], c) {
      OthersKeep(s, a, c);
    } else if a.Commit? {
      CommitKeeps(s, a, c);
    } else {
      LoadKeeps(s, a, c);
    }
  }

  lemma AllSafeStep(s: State, a: Step)
    requires Inv(s) && Can(s, a) && AllSafe(s)
    ensures AllSafe(Do(s, a)) <==> !Strands(s, a)
  {
    var r := Do(s, a);
    assert PcOk(s, a.t, s.pcs[a.t]);
    StepKeeps(s, a);
    forall c: nat | c < |r.objs|
      ensures Safe(r, c) <==> !(Strands(s, a) && s.pcs[a.t].c == c)
    {
      if c < |s.objs| {
        SafeStep(s, a, c);
      } else {
        assert r.InMap(c);
      }
    }
    if Strands(s, a) {
      assert !Safe(r, s.pcs[a.t].c);
    }
  }

  /** Every state along the run, the first and the last included, has the property. */
  predicate Along(start: State, run: seq<Step>, p: State -> bool) {
    && Exec(ANY, start, run).Some? && p(Exec(ANY, start, run).value)
    && (run == [] || Along(start, run[..|run| - 1], p))
  }

  /** The rule that forbids the commits that strand. */
  const UNSTRANDED: (State, Step) -> bool := (s, a) => !Strands(s, a)

  lemma {:induction false} StrandsWhen(start: State, run: seq<Step>)
    requires Inv(start) && AllSafe(start) && Exec(ANY, start, run).Some?
    ensures Exec(UNSTRANDED, start, run).Some? <==> Along(start, run, AllSafe)
    ensures Exec(UNSTRANDED, start, run).Some? ==> Exec(UNSTRANDED, start, run) == Exec(ANY, start, run)
  {
    if run != [] {
      var before, a := run[..|run| - 1], run[|run| - 1];
      var m := Exec(ANY, start, before).value;
      StrandsWhen(start, before);
      InvReached(ANY, start, before);
      if Along(start, before, AllSafe) {
        AllSafeStep(m, a);
      }
    }
  }

  /**
   A run of any interleaving leaves every counter safe in every state it goes through if and only if none of
   its commits writes a stale value to a counter that owes nothing and that nobody will look at again.
   */
  lemma StrandsExactly(pruneAfter: Uint32, threads: nat, run: seq<Step>)
    requires Exec(ANY, Init(pruneAfter, threads), run).Some?
    ensures Along(Init(pruneAfter, threads), run, AllSafe) <==> Exec(UNSTRANDED, Init(pruneAfter, threads), run).Some?
  {
    InvInit(pruneAfter, threads);
    StrandsWhen(Init(pruneAfter, threads), run);
  }

  /** After a run without such a commit, once all goroutines are idle all that is owed sits in the map. */
  lemma IdleOwesInMap(pruneAfter: Uint32, threads: nat, run: seq<Step>, s: State, c: nat)
    requires Reaches(UNSTRANDED, pruneAfter, threads, run, s) && AllIdle(s)
    requires c < |s.objs| && s.objs[c].current != s.objs[c].lastSent
    ensures s.InMap(c)
  {
    RunOfAny(UNSTRANDED, Init(pruneAfter, threads), run);
    StrandsExactly(pruneAfter, threads, run);
    assert Safe(s, c) && forall t: nat :: t < |s.pcs| ==> !Early(s.pcs[t], c) && !InWindow(s.pcs[t], c);
  }

  lemma SoloStrandsNothing(s: State, a: Step)
    requires Inv(s) && SoloInv(s) && Can(s, a)
    ensures !Strands(s, a)
  {
    if Strands(s, a) {
      var c := s.pcs[a.t].c;
      assert PcOk(s, a.t, s.pcs[a.t]) && Covered(s, c) && InWindow(s.pcs[a.t], c);
    }
  }

  /** Latches that do not overlap strand nothing, so the condition covers more runs. */
  lemma {:induction false} SoloIsUnstranded(pruneAfter: Uint32, threads: nat, run: seq<Step>, s: State)
    requires Reaches(SOLO, pruneAfter, threads, run, s)
    ensures Reaches(UNSTRANDED, pruneAfter, threads, run, s)
  {
    if run != [] {
      var before := run[..|run| - 1];
      var i := Init(pruneAfter, threads);
      var m := Exec(SOLO, i, before).value;
      SoloIsUnstranded(pruneAfter, threads, before, m);
      InvInit(pruneAfter, threads);
      InvReached(SOLO, i, before);
      SoloReached(SOLO, i, before);
      SoloStrandsNothing(m, run[|run| - 1]);
    }
  }

  /** The rule that every commit on name n takes a value between lastSentValue and currentValue. */
  function Genuine(n: string): (State, Step) -> bool {
    (s: State, a: Step) => Commits(s, a, n) ==> Between(s, a.t)
  }

  function BalancedFor(n: string): State -> bool {
    (s: State) => Balanced(s, n)
  }

  lemma {:induction false} CountsWhen(start: State, run: seq<Step>, n: string)
    requires Inv(start) && Balanced(start, n) && Exec(ANY, start, run).Some? && AddsOnly(run)
    requires Total(Exec(ANY, start, run).value.written, n) < MODULUS
    ensures Exec(Genuine(n), start, run).Some? <==> Along(start, run, BalancedFor(n))
    ensures Exec(Genuine(n), start, run).Some? ==> Exec(Genuine(n), start, run) == Exec(ANY, start, run)
  {
    if run != [] {
      var before, a := run[..|run| - 1], run[|run| - 1];
      var m := Exec(ANY, start, before).value;
      WrittenGrows(m, a, n);
      CountsWhen(start, before, n);
      InvReached(ANY, start, before);
      if Along(start, before, BalancedFor(n)) {
        BooksStep(m, a, n);
      }
    }
  }

  /**
   Adds in any interleaving, below 2^64 for the name: in every state of the run the sink total, the dues and
   the deltas in hand add up to what was written, as natural numbers, if and only if every commit of the run
   on that name is genuine.
   */
  lemma CountsExactly(pruneAfter: Uint32, threads: nat, run: seq<Step>, s: State, n: string)
    requires Reaches(ANY, pruneAfter, threads, run, s) && AddsOnly(run)
    requires Given(n, pruneAfter, threads, run) < MODULUS
    ensures
      Along(Init(pruneAfter, threads), run, BalancedFor(n)) <==> Exec(Genuine(n), Init(pruneAfter, threads), run).Some?
  {
    InvInit(pruneAfter, threads);
    SumZero(Held(n), Init(pruneAfter, threads).pcs);
    Told(ANY, pruneAfter, threads, run, s, n);
    CountsWhen(Init(pruneAfter, threads), run, n);
  }
}
