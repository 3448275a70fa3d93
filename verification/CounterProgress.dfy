/**
 No goroutine ever waits for another, but for flushMu: in every interleaving each has a step it can take at
 once. In particular Range always finds the keys it has to visit in the map or has visited them.
 */
module CounterProgress {
  import opened Options
  import opened Word64
  import opened CounterProtocol
  import opened CounterOrphans
  import opened CounterIdle

  /** The keys the running Range has yet to visit are still in the map: only Flush deletes. */
  predicate RangeOk(s: State) {
    s.lock.Some? ==> s.must <= s.cmap.Keys + s.seen
  }

  lemma RangeStep(s: State, a: Step)
    requires Inv(s) && IdleInv(s) && RangeOk(s) && Can(s, a)
    ensures RangeOk(Do(s, a))
  {
    assert PcOk(s, a.t, s.pcs[a.t]) && HandOk(s, s.pcs[a.t]);
  }

  lemma {:induction false} RangeReached(pruneAfter: Uint32, threads: nat, run: seq<Step>, s: State)
    requires Reaches(ANY, pruneAfter, threads, run, s)
    ensures RangeOk(s)
  {
    if run != [] {
      var before := run[..|run| - 1];
      var m := Exec(ANY, Init(pruneAfter, threads), before).value;
      IdleEver(pruneAfter, threads, before, m);
      RangeReached(pruneAfter, threads, before, m);
      RangeStep(m, run[|run| - 1]);
    }
  }

  /** What a goroutine inside a call can do next. */
  ghost function StepOf(s: State, t: nat): Step
    requires t < |s.pcs| && s.pcs[t] != Idle
  {
    match s.pcs[t]
    case Looking(_) => Store(t)
    case Touched(_) => Check(t)
    case Joining(_) => Join(t)
    case Latching(_, _) => LoadCurrent(t)
    case Loaded(_, _, _) => LoadLastSent(t)
    case Ready(_, _, _, _) => Commit(t)
    case Holding(_, _, _, _) => Deliver(t)
    case Clearing(_) => Clear(t)
    case Deleting(_) => Delete(t)
    case Marking(_) => Mark(t)
    case Ranging =>
      if s.must <= s.seen then Release(t)
      else
        var n :| n in s.must && n !in s.seen;
        Visit(t, n)
  }

  /** An idle goroutine can write any counter, look up any absent name, and enter Flush if nobody is in it. */
  lemma IdleMay(s: State, t: nat)
    requires t < |s.pcs| && s.pcs[t] == Idle
    ensures forall c: nat, d: Word :: c < |s.objs| ==> Can(s, Add(t, c, d)) && Can(s, Set(t, c, d))
    ensures forall n :: n !in s.cmap ==> Can(s, Miss(t, n))
    ensures s.lock == None ==> Can(s, Acquire(t))
  {
  }

  /** Range can meet any key in the map that it has not met, those put there meanwhile included. */
  lemma RangeMay(s: State, t: nat, n: string)
    requires t < |s.pcs| && s.pcs[t] == Ranging && n in s.cmap && n !in s.seen
    ensures Can(s, Visit(t, n))
  {
  }

  lemma StepAlways(s: State, t: nat)
    requires Inv(s) && RangeOk(s) && t < |s.pcs| && s.pcs[t] != Idle
    ensures StepOf(s, t).t == t && Can(s, StepOf(s, t))
  {
    assert PcOk(s, t, s.pcs[t]);
    var a := StepOf(s, t);
    assert a.Visit? ==> a.name in s.cmap.Keys;
  }

  /** In every interleaving a goroutine inside a call can always take a step. */
  lemma NobodyWaits(pruneAfter: Uint32, threads: nat, run: seq<Step>, s: State, t: nat)
    requires Reaches(ANY, pruneAfter, threads, run, s) && t < |s.pcs| && s.pcs[t] != Idle
    ensures StepOf(s, t).t == t && Can(s, StepOf(s, t))
  {
    IdleEver(pruneAfter, threads, run, s);
    RangeReached(pruneAfter, threads, run, s);
    StepAlways(s, t);
  }

  /** Steps left to a writer that has just changed counter c: two, or eight when it has to fold into another. */
  function Work(s: State, c: nat): nat
    requires c < |s.objs|
  {
    if s.objs[c].name !in s.cmap || s.InMap(c) then 2 else 8
  }

  /** The same when the fold goes to counter o. */
  function FoldWork(s: State, goal: Goal): nat {
    if goal.Fold? && goal.owner < |s.objs| then Work(s, goal.owner) else 0
  }

  /** How many steps goroutine t, outside Flush, is from the end of its call when it runs alone. */
  function Rank(s: State, t: nat): nat
    requires t < |s.pcs| && PcOk(s, t, s.pcs[t])
  {
    match s.pcs[t]
    case Looking(_) => 1
    case Touched(c) => Work(s, c)
    case Joining(c) => Work(s, c) - 1
    case Latching(_, g) => 4 + FoldWork(s, g)
    case Loaded(_, g, _) => 3 + FoldWork(s, g)
    case Ready(c, g, _, l) => (if s.objs[c].lastSent == l then 2 else 5) + FoldWork(s, g)
    case Holding(_, g, _, _) => 1 + FoldWork(s, g)
    case _ => 0
  }

  /** Only goroutine t moves, until its call ends. */
  function Alone(t: nat): (State, Step) -> bool {
    (s: State, a: Step) => a.t == t && t < |s.pcs| && s.pcs[t] != Idle
  }

  lemma RankBounded(s: State, t: nat)
    requires t < |s.pcs| && PcOk(s, t, s.pcs[t])
    ensures Rank(s, t) <= 13
  {
  }

  lemma RankFallsJoin(s: State, t: nat)
    requires Inv(s) && Can(s, Join(t)) && s.lock != Some(t)
    ensures
      var r := Do(s, Join(t));
      t < |r.pcs| && r.lock != Some(t) && PcOk(r, t, r.pcs[t]) && Rank(r, t) < Rank(s, t)
  {
    assert PcOk(s, t, s.pcs[t]);
    OwnPcOk(s, Join(t));
  }

  lemma RankFallsLatch(s: State, a: Step)
    requires Inv(s) && Can(s, a) && s.lock != Some(a.t) && (a.LoadCurrent? || a.LoadLastSent? || a.Commit?)
    ensures
      var r := Do(s, a);
      a.t < |r.pcs| && r.lock != Some(a.t) && PcOk(r, a.t, r.pcs[a.t]) && Rank(r, a.t) < Rank(s, a.t)
  {
    assert PcOk(s, a.t, s.pcs[a.t]);
    OwnPcOk(s, a);
  }

  lemma RankFallsElse(s: State, a: Step)
    requires Inv(s) && Can(s, a) && s.lock != Some(a.t) && s.pcs[a.t] != Idle
    requires !a.LoadCurrent? && !a.LoadLastSent? && !a.Commit? && !a.Join?
    ensures
      var r := Do(s, a);
      a.t < |r.pcs| && r.lock != Some(a.t) && PcOk(r, a.t, r.pcs[a.t]) && Rank(r, a.t) < Rank(s, a.t)
  {
    assert PcOk(s, a.t, s.pcs[a.t]);
    OwnPcOk(s, a);
  }

  lemma RankFalls(s: State, a: Step)
    requires Inv(s) && Can(s, a) && s.lock != Some(a.t) && s.pcs[a.t] != Idle
    ensures
      var r := Do(s, a);
      && Inv(r) && a.t < |r.pcs| && r.lock != Some(a.t)
      && PcOk(s, a.t, s.pcs[a.t]) && PcOk(r, a.t, r.pcs[a.t]) && Rank(r, a.t) < Rank(s, a.t)
  {
    InvStep(s, a);
    if a.Join? {
      RankFallsJoin(s, a.t);
    } else if a.LoadCurrent? || a.LoadLastSent? || a.Commit? {
      RankFallsLatch(s, a);
    } else {
      RankFallsElse(s, a);
    }
  }

  lemma {:induction false} AloneBounded(s: State, t: nat, run: seq<Step>)
    requires Inv(s) && t < |s.pcs| && s.lock != Some(t) && Exec(Alone(t), s, run).Some?
    ensures
      var r := Exec(Alone(t), s, run).value;
      Inv(r) && t < |r.pcs| && r.lock != Some(t) && PcOk(s, t, s.pcs[t]) && PcOk(r, t, r.pcs[t])
      && |run| + Rank(r, t) <= Rank(s, t)
  {
    if run != [] {
      var before, a := run[..|run| - 1], run[|run| - 1];
      AloneBounded(s, t, before);
      var m := Exec(Alone(t), s, before).value;
      RankFalls(m, a);
    }
  }

  /**
   Adds, Sets and lookups never go on for ever: from every reachable state, wherever the others stand, a goroutine
   outside Flush that runs alone makes at most 13 steps to the end of its call. The recursion of rejoin through
   Add goes at most one counter deeper than the fold under way.
   */
  lemma WriterEnds(pruneAfter: Uint32, threads: nat, run: seq<Step>, s: State, t: nat, more: seq<Step>)
    requires Reaches(ANY, pruneAfter, threads, run, s) && t < |s.pcs| && s.lock != Some(t)
    requires Exec(Alone(t), s, more).Some?
    ensures |more| <= 13
  {
    InvInit(pruneAfter, threads);
    InvReached(ANY, Init(pruneAfter, threads), run);
    AloneBounded(s, t, more);
    RankBounded(s, t);
  }

  lemma Ahead(pruneAfter: Uint32, threads: nat, run: seq<Step>, s: State, t: nat) returns (a: Step)
    requires Reaches(ANY, pruneAfter, threads, run, s) && t < |s.pcs| && s.lock != Some(t) && s.pcs[t] != Idle
    ensures Can(s, a) && a.t == t && Reaches(ANY, pruneAfter, threads, run + [a], Do(s, a))
    ensures
      var r := Do(s, a);
      && t < |r.pcs| && r.lock != Some(t)
      && PcOk(s, t, s.pcs[t]) && PcOk(r, t, r.pcs[t]) && Rank(r, t) < Rank(s, t)
  {
    IdleEver(pruneAfter, threads, run, s);
    RangeReached(pruneAfter, threads, run, s);
    StepAlways(s, t);
    a := StepOf(s, t);
    RankFalls(s, a);
    assert (run + [a])[..|run|] == run;
  }

  /** And it gets there: such a goroutine alone can bring its call to its end. */
  lemma CallReturns(pruneAfter: Uint32, threads: nat, run: seq<Step>, s: State, t: nat)
    returns (more: seq<Step>, r: State)
    requires Reaches(ANY, pruneAfter, threads, run, s) && t < |s.pcs| && s.lock != Some(t)
    ensures Reaches(ANY, pruneAfter, threads, run + more, r) && forall a :: a in more ==> a.t == t
    ensures t < |r.pcs| && r.pcs[t] == Idle
  {
    more, r := [], s;
    assert run + more == run;
    InvInit(pruneAfter, threads);
    InvReached(ANY, Init(pruneAfter, threads), run);
    while r.pcs[t] != Idle
      invariant Reaches(ANY, pruneAfter, threads, run + more, r) && forall a :: a in more ==> a.t == t
      invariant t < |r.pcs| && r.lock != Some(t) && PcOk(r, t, r.pcs[t])
      decreases Rank(r, t)
    {
      var a := Ahead(pruneAfter, threads, run + more, r, t);
      assert run + more + [a] == run + (more + [a]);
      more, r := more + [a], Do(r, a);
    }
  }
}
