/**
 A Flush that no other operation overlaps: it ends after a bounded number of steps and leaves no counter in
 the map that has been idle for pruneAfterFlushes visits, whatever went before; and it reports all that is
 owed in the map.
 */
module CounterQuiet {
  import opened Options
  import opened Word64
  import opened Sums
  import opened CounterProtocol
  import opened CounterOrphans
  import opened CounterHistory
  import opened CounterConservation
  import opened CounterStranding
  import opened CounterExact

  /** Only goroutine t moves, until it releases flushMu. */
  function By(t: nat): (State, Step) -> bool {
    (s: State, a: Step) => a.t == t && s.lock == Some(t)
  }

  predicate Unreported(s: State, c: nat)
    requires c < |s.objs|
  {
    s.objs[c].current != s.objs[c].lastSent
  }

  /** Flush has counter c in hand and has not committed its first latch. */
  predicate AtReport(pc: Pc, c: nat) {
    (pc.Latching? || pc.Loaded? || pc.Ready?) && pc.goal == Report && pc.c == c
  }

  /** Flush has counter c in hand and has not decided whether to keep it. */
  predicate InHand(pc: Pc, c: nat) {
    AtReport(pc, c) || (pc.Holding? && pc.c == c) || pc == Deleting(c)
  }

  /** Flush has visited the key of counter c. */
  predicate Visited(s: State, c: nat) {
    c < |s.objs| && s.objs[c].name in s.seen
  }

  predicate QuietPc(s: State, pc: Pc) {
    match pc
    case Ranging => true
    case Latching(c, g) => Visited(s, c) && (g == Report || (g == Relatch && !Unreported(s, c)))
    case Loaded(c, g, v) =>
      Visited(s, c) && v == s.objs[c].current && (g == Report || (g == Relatch && !Unreported(s, c)))
    case Ready(c, g, v, l) => Visited(s, c) && v == s.objs[c].current && l == s.objs[c].lastSent && g == Report
    case Holding(c, g, _, _) => Visited(s, c) && g == Report && !Unreported(s, c)
    case Clearing(c) => Visited(s, c) && !Unreported(s, c)
    case Deleting(c) => Visited(s, c) && !Unreported(s, c)
    case Marking(c) => Visited(s, c) && !Unreported(s, c)
    case _ => false
  }

  predicate Young(s: State, c: nat)
    requires c < |s.objs|
  {
    s.pruneAfter == 0 || s.objs[c].idleFlushes < s.pruneAfter
  }

  /** A counter the Flush has visited and left in the map has not been idle for too long. */
  predicate Kept(s: State, t: nat, c: nat)
    requires t < |s.pcs| && c < |s.objs|
  {
    s.InMap(c) && s.objs[c].name in s.seen ==> Young(s, c) || InHand(s.pcs[t], c)
  }

  predicate Quiet(s: State, t: nat) {
    && t < |s.pcs| && s.lock == Some(t)
    && (forall u: nat :: u < |s.pcs| && u != t ==> s.pcs[u] == Idle)
    && QuietPc(s, s.pcs[t])
    && s.cmap.Keys <= s.must <= s.cmap.Keys + s.seen
    && forall c: nat :: c < |s.objs| ==> Kept(s, t, c)
  }

  /** What Flush still has to report is in the map under a key it has to visit, or in its hand. */
  predicate ToReport(s: State, t: nat, c: nat)
    requires t < |s.pcs| && c < |s.objs|
  {
    Unreported(s, c) ==> s.InMap(c) && (s.objs[c].name !in s.seen || AtReport(s.pcs[t], c))
  }

  predicate AllToReport(s: State, t: nat) {
    t < |s.pcs| && forall c: nat :: c < |s.objs| ==> ToReport(s, t, c)
  }

  /** No counter in the map is due for pruning. */
  predicate AllYoung(s: State) {
    forall c: nat :: c < |s.objs| && s.InMap(c) ==> Young(s, c)
  }

  predicate NothingOwed(s: State) {
    forall c: nat :: c < |s.objs| ==> !Unreported(s, c)
  }

  /** All that is owed is owed by counters in the map. */
  predicate OwedInMap(s: State) {
    forall c: nat :: c < |s.objs| && Unreported(s, c) ==> s.InMap(c)
  }

  lemma QuietStart(s: State, t: nat)
    requires Inv(s) && AllIdle(s) && Can(s, Acquire(t))
    ensures Quiet(Do(s, Acquire(t)), t)
    ensures OwedInMap(s) ==> AllToReport(Do(s, Acquire(t)), t)
  {
    var r := Do(s, Acquire(t));
    forall c: nat | c < |r.objs|
      ensures Kept(r, t, c) && (OwedInMap(s) ==> ToReport(r, t, c))
    {
      assert Unreported(s, c) && OwedInMap(s) ==> s.InMap(c);
    }
  }

  lemma QuietPcStep(s: State, a: Step, t: nat)
    requires Inv(s) && Can(s, a) && Quiet(s, t) && a.t == t && !a.Release?
    ensures t < |Do(s, a).pcs| == |s.pcs| && QuietPc(Do(s, a), Do(s, a).pcs[t])
  {
    assert PcOk(s, t, s.pcs[t]);
  }

  lemma QuietMapStep(s: State, a: Step, t: nat)
    requires Inv(s) && Can(s, a) && Quiet(s, t) && a.t == t && !a.Release?
    ensures
      var r := Do(s, a);
      && r.lock == Some(t) && r.cmap.Keys <= r.must <= r.cmap.Keys + r.seen
      && r.written == s.written && |r.objs| == |s.objs|
  {
    assert PcOk(s, t, s.pcs[t]);
  }

  lemma KeptStep(s: State, a: Step, t: nat, c: nat)
    requires Inv(s) && Can(s, a) && Quiet(s, t) && a.t == t && !a.Release? && c < |s.objs| == |Do(s, a).objs|
    ensures t < |Do(s, a).pcs| && Kept(Do(s, a), t, c)
  {
    assert PcOk(s, t, s.pcs[t]) && Kept(s, t, c);
  }

  lemma ToReportStep(s: State, a: Step, t: nat, c: nat)
    requires Inv(s) && Can(s, a) && Quiet(s, t) && a.t == t && !a.Release? && c < |s.objs| == |Do(s, a).objs|
    requires ToReport(s, t, c)
    ensures t < |Do(s, a).pcs| && ToReport(Do(s, a), t, c)
  {
    assert PcOk(s, t, s.pcs[t]);
  }

  lemma QuietStep(s: State, a: Step, t: nat)
    requires Inv(s) && Can(s, a) && Quiet(s, t) && a.t == t && !a.Release?
    ensures Quiet(Do(s, a), t) && Do(s, a).written == s.written
    ensures AllToReport(s, t) ==> AllToReport(Do(s, a), t)
  {
    var r := Do(s, a);
    assert PcOk(s, t, s.pcs[t]);
    StepKeeps(s, a);
    QuietPcStep(s, a, t);
    QuietMapStep(s, a, t);
    forall c: nat | c < |r.objs|
      ensures Kept(r, t, c) && (AllToReport(s, t) ==> ToReport(r, t, c))
    {
      KeptStep(s, a, t, c);
      if AllToReport(s, t) {
        ToReportStep(s, a, t, c);
      }
    }
  }

  lemma QuietEnd(s: State, t: nat)
    requires Inv(s) && Quiet(s, t) && Can(s, Release(t))
    ensures
      var r := Do(s, Release(t));
      AllIdle(r) && AllYoung(r) && r.lock == None && r.written == s.written && (AllToReport(s, t) ==> NothingOwed(r))
  {
    var r := Do(s, Release(t));
    forall c: nat | c < |r.objs|
      ensures (AllToReport(s, t) ==> !Unreported(r, c)) && (r.InMap(c) ==> Young(r, c))
    {
      assert Kept(s, t, c) && (AllToReport(s, t) ==> ToReport(s, t, c));
      assert s.InMap(c) ==> s.objs[c].name in s.cmap.Keys;
    }
  }

  lemma QuietIsAdds(s: State, a: Step, t: nat)
    requires Quiet(s, t) && Can(s, a) && a.t == t
    ensures ADDS(s, a)
  {
    if a.LoadCurrent? {
      forall u: nat | u < |s.pcs|
        ensures !InWindow(s.pcs[u], s.pcs[t].c)
      {
      }
      assert Alone(s, s.pcs[a.t].c);
    }
  }

  /** What a Flush that runs alone keeps, and where it ends. */
  predicate During(s: State, t: nat, owed: bool) {
    if s.lock == None then AllIdle(s) && AllYoung(s) && (owed ==> NothingOwed(s))
    else Quiet(s, t) && (owed ==> AllToReport(s, t))
  }

  lemma {:induction false} QuietReached(s: State, t: nat, run: seq<Step>, owed: bool)
    requires Inv(s) && Quiet(s, t) && (owed ==> AllToReport(s, t)) && Exec(By(t), s, run).Some?
    ensures Exec(ADDS, s, run) == Exec(By(t), s, run)
    ensures
      var r := Exec(By(t), s, run).value;
      Inv(r) && r.written == s.written && During(r, t, owed)
  {
    if run != [] {
      var a := run[|run| - 1];
      QuietReached(s, t, run[..|run| - 1], owed);
      var m := Exec(By(t), s, run[..|run| - 1]).value;
      QuietIsAdds(m, a, t);
      InvStep(m, a);
      if a.Release? {
        QuietEnd(m, t);
      } else {
        QuietStep(m, a, t);
      }
    }
  }

  /** Where a Flush that runs alone ends. */
  predicate FlushedTo(s: State, t: nat, flush: seq<Step>, r: State) {
    && Can(s, Acquire(t)) && Exec(By(t), Do(s, Acquire(t)), flush) == Some(r) && r.lock == None
  }

  lemma FlushCleans(s: State, t: nat, flush: seq<Step>, r: State)
    requires Inv(s) && AllIdle(s) && FlushedTo(s, t, flush, r)
    ensures Inv(Do(s, Acquire(t))) && AllIdle(r) && AllYoung(r) && r.written == s.written
    ensures OwedInMap(s) ==> NothingOwed(r)
    ensures Exec(ADDS, Do(s, Acquire(t)), flush) == Some(r)
  {
    QuietStart(s, t);
    InvStep(s, Acquire(t));
    QuietReached(Do(s, Acquire(t)), t, flush, OwedInMap(s));
  }

  /**
   After every run of every interleaving, a Flush that no other operation overlaps leaves no counter in the
   map that has been idle for pruneAfterFlushes visits.
   */
  lemma FlushLeavesYoung(
      pruneAfter: Uint32, threads: nat, run: seq<Step>, s: State, t: nat, flush: seq<Step>, r: State, c: nat)
    requires Reaches(ANY, pruneAfter, threads, run, s) && AllIdle(s) && FlushedTo(s, t, flush, r)
    requires c < |r.objs| && r.InMap(c)
    ensures pruneAfter == 0 || r.objs[c].idleFlushes < pruneAfter
  {
    InvInit(pruneAfter, threads);
    InvReached(ANY, Init(pruneAfter, threads), run);
    FlushCleans(s, t, flush, r);
    InvReached(ADDS, Do(s, Acquire(t)), flush);
    assert Young(r, c);
  }

  lemma SoloOwesInMap(rule: (State, Step) -> bool, pruneAfter: Uint32, threads: nat, run: seq<Step>, s: State)
    requires forall x, a :: rule(x, a) ==> SOLO(x, a)
    requires Reaches(rule, pruneAfter, threads, run, s) && AllIdle(s)
    ensures Inv(s) && SoloInv(s) && OwedInMap(s)
  {
    InvInit(pruneAfter, threads);
    InvReached(rule, Init(pruneAfter, threads), run);
    SoloReached(rule, Init(pruneAfter, threads), run);
    forall c: nat | c < |s.objs| && Unreported(s, c)
      ensures s.InMap(c)
    {
      assert Covered(s, c);
      assert forall t: nat :: t < |s.pcs| ==> !Early(s.pcs[t], c) && !InWindow(s.pcs[t], c);
    }
  }

  lemma CleanOwesNothing(s: State, n: string)
    requires AllIdle(s) && NothingOwed(s)
    ensures Sum(Due(n), s.objs) == 0 && Sum(Owed(n), s.objs) == 0 && Sum(Held(n), s.pcs) == 0
  {
    forall o | o in s.objs
      ensures Due(n)(o) == 0 && Owed(n)(o) == 0
    {
      var c :| 0 <= c < |s.objs| && s.objs[c] == o;
      assert !Unreported(s, c);
    }
    SumZero(Due(n), s.objs);
    SumZero(Owed(n), s.objs);
    SumZero(Held(n), s.pcs);
  }

  lemma ExactAcross(s: State, t: nat, flush: seq<Step>, r: State, n: string)
    requires Inv(s) && SoloInv(s) && Exact(s, n) && AllIdle(s) && FlushedTo(s, t, flush, r)
    ensures Exact(r, n)
  {
    FlushCleans(s, t, flush, r);
    SoloStep(s, Acquire(t));
    ExactStep(s, Acquire(t), n);
    ExactReached(Do(s, Acquire(t)), flush, n);
  }

  /** The Flush is a run too, and the sink totals are what was reported by its end. */
  lemma FlushTold(
      rule: (State, Step) -> bool, pruneAfter: Uint32, threads: nat, run: seq<Step>, s: State, t: nat,
      flush: seq<Step>, r: State, n: string)
    requires Reaches(rule, pruneAfter, threads, run, s) && FlushedTo(s, t, flush, r)
    ensures Reaches(ANY, pruneAfter, threads, run + [Acquire(t)] + flush, r)
    ensures Total(r.sink, n) == Handed(n, pruneAfter, threads, run + [Acquire(t)] + flush)
    ensures Total(s.written, n) == Given(n, pruneAfter, threads, run)
  {
    var i, taken := Init(pruneAfter, threads), run + [Acquire(t)];
    RunOfAny(rule, i, run);
    RunOfAny(By(t), Do(s, Acquire(t)), flush);
    assert taken[..|run|] == run && taken[|run|] == Acquire(t);
    ExecConcat(ANY, i, taken, flush);
    Told(ANY, pruneAfter, threads, taken + flush, r, n);
    Told(rule, pruneAfter, threads, run, s, n);
  }

  /**
   After the writers have finished, the next Flush has reported, for every name, the sum of what was added to
   it, as natural numbers, and leaves nothing owed.
   */
  lemma NextFlushReportsAll(
      pruneAfter: Uint32, threads: nat, run: seq<Step>, s: State, t: nat, flush: seq<Step>, r: State, n: string)
    requires Reaches(ADDS, pruneAfter, threads, run, s) && AllIdle(s)
    requires FlushedTo(s, t, flush, r)
    ensures NothingOwed(r)
    ensures
      Given(n, pruneAfter, threads, run) < MODULUS ==>
        Handed(n, pruneAfter, threads, run + [Acquire(t)] + flush) == Given(n, pruneAfter, threads, run)
  {
    var i := Init(pruneAfter, threads);
    InvInit(pruneAfter, threads);
    SoloOwesInMap(ADDS, pruneAfter, threads, run, s);
    SumZero(Held(n), i.pcs);
    ExactReached(i, run, n);
    FlushCleans(s, t, flush, r);
    ExactAcross(s, t, flush, r, n);
    CleanOwesNothing(r, n);
    FlushTold(ADDS, pruneAfter, threads, run, s, t, flush, r, n);
  }

  lemma BalanceAcross(s: State, t: nat, flush: seq<Step>, r: State, n: string)
    requires Inv(s) && Can(s, Acquire(t)) && Inv(Do(s, Acquire(t))) && FlushedTo(s, t, flush, r)
    ensures Congruent(Balance(r, n), Balance(s, n))
  {
    var s1 := Do(s, Acquire(t));
    assert PcOk(s, t, s.pcs[t]);
    BalanceStep(s, Acquire(t), n);
    BalanceReached(By(t), s1, flush, n);
    CongruentTrans(Balance(r, n), Balance(s1, n), Balance(s, n));
  }

  lemma BalanceClean(s: State, n: string)
    requires AllIdle(s) && NothingOwed(s) && Congruent(Balance(s, n), 0)
    ensures Congruent(Total(s.sink, n), Total(s.written, n))
  {
    CleanOwesNothing(s, n);
    BalanceMeans(s, n, 0);
  }

  /** With Sets and any amounts, the next Flush has reported what was written, modulo 2^64. */
  lemma NextFlushReportsAllModulo(
      pruneAfter: Uint32, threads: nat, run: seq<Step>, s: State, t: nat, flush: seq<Step>, r: State, n: string)
    requires Reaches(SOLO, pruneAfter, threads, run, s) && AllIdle(s)
    requires FlushedTo(s, t, flush, r)
    ensures NothingOwed(r)
    ensures
      Congruent(
        Handed(n, pruneAfter, threads, run + [Acquire(t)] + flush), Given(n, pruneAfter, threads, run))
  {
    var i := Init(pruneAfter, threads);
    InvInit(pruneAfter, threads);
    SoloOwesInMap(SOLO, pruneAfter, threads, run, s);
    FlushCleans(s, t, flush, r);
    BalanceInit(pruneAfter, threads, n);
    BalanceReached(SOLO, i, run, n);
    BalanceAcross(s, t, flush, r, n);
    CongruentTrans(Balance(r, n), Balance(s, n), 0);
    BalanceClean(r, n);
    FlushTold(SOLO, pruneAfter, threads, run, s, t, flush, r, n);
  }

  /** How far Flush is from the end of its current callback. */
  function Rank(pc: Pc): nat {
    match pc
    case Latching(_, g) => if g == Report then 9 else 3
    case Loaded(_, g, _) => if g == Report then 8 else 2
    case Ready(_, _, _, _) => 7
    case Holding(_, _, _, _) => 6
    case Clearing(_) => 1
    case Deleting(_) => 5
    case Marking(_) => 4
    case _ => 0
  }

  /** The step Flush takes next when it runs alone. */
  ghost function NextStep(s: State, t: nat): Step
    requires Quiet(s, t)
  {
    match s.pcs[t]
    case Latching(_, _) => LoadCurrent(t)
    case Loaded(_, _, _) => LoadLastSent(t)
    case Ready(_, _, _, _) => Commit(t)
    case Holding(_, _, _, _) => Deliver(t)
    case Clearing(_) => Clear(t)
    case Deleting(_) => Delete(t)
    case Marking(_) => Mark(t)
    case _ =>
      if s.must <= s.seen then Release(t)
      else
        var n :| n in s.must && n !in s.seen;
        Visit(t, n)
  }

  /** An upper bound on the steps Flush has left before it releases the mutex. */
  function Left(s: State, t: nat): nat
    requires t < |s.pcs|
  {
    10 * |s.must - s.seen| + Rank(s.pcs[t])
  }

  lemma NextStepCan(s: State, t: nat)
    requires Inv(s) && Quiet(s, t)
    ensures Can(s, NextStep(s, t)) && NextStep(s, t).t == t
  {
    assert PcOk(s, t, s.pcs[t]);
  }

  lemma VisitCounts(s: State, t: nat, n: string)
    requires Inv(s) && Quiet(s, t) && Can(s, Visit(t, n))
    ensures Left(Do(s, Visit(t, n)), t) < Left(s, t)
  {
    var r := Do(s, Visit(t, n));
    assert n in s.cmap.Keys && r.must - r.seen == (s.must - s.seen) - {n};
  }

  lemma RankFalls(s: State, a: Step, t: nat)
    requires Inv(s) && Quiet(s, t) && Can(s, a) && a.t == t && !a.Release? && !a.Visit?
    ensures
      var r := Do(s, a);
      r.must == s.must && r.seen == s.seen && t < |r.pcs| && Rank(r.pcs[t]) < Rank(s.pcs[t])
  {
    assert PcOk(s, t, s.pcs[t]);
  }

  /** Every step of a Flush that runs alone brings it nearer to its end. */
  lemma StepCounts(s: State, a: Step, t: nat)
    requires Inv(s) && Quiet(s, t) && Can(s, a) && a.t == t && !a.Release?
    ensures t < |Do(s, a).pcs| && Left(Do(s, a), t) < Left(s, t)
  {
    if a.Visit? {
      VisitCounts(s, t, a.name);
    } else {
      RankFalls(s, a, t);
    }
  }

  lemma {:induction false} FlushBounded(s: State, t: nat, run: seq<Step>)
    requires Inv(s) && Quiet(s, t) && Exec(By(t), s, run).Some?
    ensures
      var r := Exec(By(t), s, run).value;
      |run| <= Left(s, t) + 1 && (r.lock == Some(t) ==> t < |r.pcs| && |run| + Left(r, t) <= Left(s, t))
  {
    if run != [] {
      var before, a := run[..|run| - 1], run[|run| - 1];
      FlushBounded(s, t, before);
      QuietReached(s, t, before, false);
      var m := Exec(By(t), s, before).value;
      if !a.Release? {
        StepCounts(m, a, t);
      }
    }
  }

  /**
   After every run of every interleaving: a Flush that no other operation overlaps makes at most ten steps for
   each key in the map, and one to end. Neither Range nor the loop of latch goes on for ever.
   */
  lemma FlushTakes(pruneAfter: Uint32, threads: nat, run: seq<Step>, s: State, t: nat, flush: seq<Step>)
    requires Reaches(ANY, pruneAfter, threads, run, s) && AllIdle(s) && Can(s, Acquire(t))
    requires Exec(By(t), Do(s, Acquire(t)), flush).Some?
    ensures |flush| <= 10 * |s.cmap| + 1
  {
    InvInit(pruneAfter, threads);
    InvReached(ANY, Init(pruneAfter, threads), run);
    QuietStart(s, t);
    InvStep(s, Acquire(t));
    FlushBounded(Do(s, Acquire(t)), t, flush);
    assert s.cmap.Keys - {} == s.cmap.Keys;
  }

  lemma {:induction false} ExecCons(rule: (State, Step) -> bool, s: State, a: Step, run: seq<Step>)
    requires Can(s, a) && rule(s, a)
    ensures Exec(rule, s, [a] + run) == Exec(rule, Do(s, a), run)
  {
    if run == [] {
      assert Exec(rule, s, []) == Some(s);
      assert [a] + run == [a];
    } else {
      ExecCons(rule, s, a, run[..|run| - 1]);
      assert ([a] + run)[..|[a] + run| - 1] == [a] + run[..|run| - 1];
    }
  }

  /** A Flush that runs alone is never stuck: it can always run to its end. */
  lemma FlushEnds(s: State, t: nat) returns (run: seq<Step>)
    requires Inv(s) && Quiet(s, t)
    ensures Exec(By(t), s, run).Some? && Exec(By(t), s, run).value.lock == None
    decreases Left(s, t)
  {
    var a := NextStep(s, t);
    NextStepCan(s, t);
    if a.Release? {
      run := [a];
      assert Exec(By(t), s, []) == Some(s);
    } else {
      StepCounts(s, a, t);
      QuietStep(s, a, t);
      InvStep(s, a);
      var rest := FlushEnds(Do(s, a), t);
      run := [a] + rest;
      ExecCons(By(t), s, a, rest);
    }
  }
}
