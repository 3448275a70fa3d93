/**
 How long an idle counter stays: it is deleted only by a Flush at least pruneAfterFlushes calls after
 the one that last reported it.
 */
module CounterIdle {
  import opened Options
  import opened Word64
  import opened CounterProtocol
  import opened CounterOrphans
  import opened CounterHistory
  import opened PruneWindow

  /** The running Flush has counter c in hand and has not counted it idle. */
  predicate Reporting(s: State, c: nat) {
    s.lock.Some? && s.lock.value < |s.pcs| &&
    var pc := s.pcs[s.lock.value];
    (pc.Latching? || pc.Loaded? || pc.Ready?) && pc.goal == Report && pc.c == c
  }

  /** Flush calls since the last report, not counting the running one while c has yet to be visited. */
  function Visits(s: State, c: nat): int
    requires c < |s.objs|
  {
    s.epoch - s.objs[c].since - if s.lock.Some? && (s.objs[c].name !in s.seen || Reporting(s, c)) then 1 else 0
  }

  /** A key in the hand of Flush has been visited, and a counter to delete is old enough. */
  predicate HandOk(s: State, pc: Pc) {
    match pc
    case Latching(c, g) => g.Fold? || (c < |s.objs| && s.objs[c].name in s.seen)
    case Loaded(c, g, _) => g.Fold? || (c < |s.objs| && s.objs[c].name in s.seen)
    case Ready(c, g, _, _) => g.Fold? || (c < |s.objs| && s.objs[c].name in s.seen)
    case Holding(c, g, _, _) => g.Fold? || (c < |s.objs| && s.objs[c].name in s.seen)
    case Deleting(c) => c < |s.objs| && s.objs[c].name in s.seen && s.pruneAfter <= s.objs[c].idleFlushes
    case Marking(c) => c < |s.objs| && s.objs[c].name in s.seen
    case _ => true
  }

  /** idleFlushes after n visits that found nothing to report. */
  function IdleFlushes(pruneAfter: Uint32, n: nat): Uint32 {
    if pruneAfter == 0 then 0 else n % 0x1_0000_0000
  }

  /** idleFlushes counts zero-delta visits since the last report, of which each Flush call makes at most one. */
  predicate Counted(s: State, c: nat)
    requires c < |s.objs|
  {
    s.objs[c].idleFlushes == IdleFlushes(s.pruneAfter, s.objs[c].zeros) && s.objs[c].zeros <= Visits(s, c)
  }

  predicate IdleInv(s: State) {
    && (forall c: nat :: c < |s.objs| ==> Counted(s, c))
    && (forall t: nat :: t < |s.pcs| ==> HandOk(s, s.pcs[t]))
  }

  lemma HandLoad(s: State, t: nat)
    requires Inv(s) && IdleInv(s) && Can(s, LoadLastSent(t))
    ensures
      var r := Do(s, LoadLastSent(t));
      t < |r.pcs| && HandOk(r, r.pcs[t])
  {
    assert PcOk(s, t, s.pcs[t]) && HandOk(s, s.pcs[t]);
  }

  lemma HandOwn(s: State, a: Step)
    requires Inv(s) && IdleInv(s) && Can(s, a)
    ensures a.t < |Do(s, a).pcs| && HandOk(Do(s, a), Do(s, a).pcs[a.t])
  {
    if a.LoadLastSent? {
      HandLoad(s, a.t);
    } else {
      assert PcOk(s, a.t, s.pcs[a.t]) && HandOk(s, s.pcs[a.t]);
    }
  }

  /** Only the holder of flushMu moves the flush count, the visited keys or idleFlushes. */
  lemma WritersKeepIdle(s: State, a: Step)
    requires Inv(s) && Can(s, a) && s.lock != Some(a.t) && !a.Acquire?
    ensures
      var r := Do(s, a);
      && r.lock == s.lock && r.seen == s.seen && r.epoch == s.epoch && |s.objs| <= |r.objs|
      && forall c: nat :: c < |s.objs| ==>
        && r.objs[c].name == s.objs[c].name && r.objs[c].idleFlushes == s.objs[c].idleFlushes
        && r.objs[c].since == s.objs[c].since && r.objs[c].zeros == s.objs[c].zeros
  {
    assert PcOk(s, a.t, s.pcs[a.t]);
  }

  lemma HandOther(s: State, a: Step, t: nat)
    requires Inv(s) && IdleInv(s) && Can(s, a) && t < |s.pcs| && t != a.t
    ensures t < |Do(s, a).pcs| && HandOk(Do(s, a), Do(s, a).pcs[t])
  {
    assert PcOk(s, a.t, s.pcs[a.t]) && PcOk(s, t, s.pcs[t]) && HandOk(s, s.pcs[t]);
    StepKeeps(s, a);
    assert Do(s, a).pcs[t] == s.pcs[t];
    if s.lock == Some(t) {
      WritersKeepIdle(s, a);
    }
  }

  lemma VisitsLoad(s: State, t: nat, c: nat)
    requires Inv(s) && IdleInv(s) && Can(s, LoadLastSent(t)) && c < |s.objs| && s.lock == Some(t)
    ensures
      var r := Do(s, LoadLastSent(t));
      |s.objs| <= |r.objs| && Counted(r, c)
  {
    assert PcOk(s, t, s.pcs[t]) && HandOk(s, s.pcs[t]) && Counted(s, c);
    if s.pruneAfter > 0 {
      NextWraps(s.objs[c].idleFlushes, s.objs[c].zeros);
    }
  }

  lemma VisitsDeliver(s: State, t: nat, c: nat)
    requires Inv(s) && IdleInv(s) && Can(s, Deliver(t)) && c < |s.objs| && s.lock == Some(t)
    ensures
      var r := Do(s, Deliver(t));
      |s.objs| <= |r.objs| && Counted(r, c)
  {
    assert PcOk(s, t, s.pcs[t]) && HandOk(s, s.pcs[t]) && Counted(s, c);
  }

  lemma VisitsRange(s: State, a: Step, c: nat)
    requires Inv(s) && IdleInv(s) && Can(s, a) && c < |s.objs| && s.lock == Some(a.t)
    requires a.Acquire? || a.Visit? || a.Release?
    ensures |s.objs| <= |Do(s, a).objs| && Counted(Do(s, a), c)
  {
    assert PcOk(s, a.t, s.pcs[a.t]) && Counted(s, c);
  }

  lemma VisitsElse(s: State, a: Step, c: nat)
    requires Inv(s) && IdleInv(s) && Can(s, a) && c < |s.objs| && s.lock == Some(a.t)
    requires !a.LoadLastSent? && !a.Deliver? && !a.Acquire? && !a.Visit? && !a.Release?
    ensures |s.objs| <= |Do(s, a).objs| && Counted(Do(s, a), c)
  {
    assert PcOk(s, a.t, s.pcs[a.t]) && Counted(s, c);
  }

  lemma VisitsStep(s: State, a: Step, c: nat)
    requires Inv(s) && IdleInv(s) && Can(s, a) && c < |s.objs| && s.lock == Some(a.t)
    ensures |s.objs| <= |Do(s, a).objs| && Counted(Do(s, a), c)
  {
    if a.LoadLastSent? {
      VisitsLoad(s, a.t, c);
    } else if a.Deliver? {
      VisitsDeliver(s, a.t, c);
    } else if a.Acquire? || a.Visit? || a.Release? {
      VisitsRange(s, a, c);
    } else {
      VisitsElse(s, a, c);
    }
  }

  lemma VisitsNew(s: State, a: Step)
    requires Inv(s) && Can(s, a) && |s.objs| < |Do(s, a).objs|
    ensures |Do(s, a).objs| == |s.objs| + 1 && Counted(Do(s, a), |s.objs|)
  {
  }

  lemma VisitsAny(s: State, a: Step, c: nat)
    requires Inv(s) && IdleInv(s) && Can(s, a) && c < |s.objs|
    ensures |s.objs| <= |Do(s, a).objs| && Counted(Do(s, a), c)
  {
    assert Counted(s, c);
    if s.lock == Some(a.t) {
      VisitsStep(s, a, c);
    } else if !a.Acquire? {
      assert PcOk(s, a.t, s.pcs[a.t]);
      WritersKeepIdle(s, a);
      StepKeeps(s, a);
      assert s.lock.Some? && s.lock.value < |s.pcs| ==> Do(s, a).pcs[s.lock.value] == s.pcs[s.lock.value];
    }
  }

  lemma IdleStep(s: State, a: Step)
    requires Inv(s) && IdleInv(s) && Can(s, a)
    ensures IdleInv(Do(s, a))
  {
    var r := Do(s, a);
    assert PcOk(s, a.t, s.pcs[a.t]);
    StepKeeps(s, a);
    forall t: nat | t < |r.pcs|
      ensures HandOk(r, r.pcs[t])
    {
      if t == a.t {
        HandOwn(s, a);
      } else {
        HandOther(s, a, t);
      }
    }
    forall c: nat | c < |r.objs|
      ensures Counted(r, c)
    {
      if c < |s.objs| {
        VisitsAny(s, a, c);
      } else {
        VisitsNew(s, a);
      }
    }
  }

  lemma {:induction false} IdleReached(rule: (State, Step) -> bool, s: State, run: seq<Step>)
    requires Inv(s) && IdleInv(s) && Exec(rule, s, run).Some?
    ensures IdleInv(Exec(rule, s, run).value)
  {
    if run != [] {
      IdleReached(rule, s, run[..|run| - 1]);
      InvReached(rule, s, run[..|run| - 1]);
      IdleStep(Exec(rule, s, run[..|run| - 1]).value, run[|run| - 1]);
    }
  }

  lemma IdleEver(pruneAfter: Uint32, threads: nat, run: seq<Step>, s: State)
    requires Reaches(ANY, pruneAfter, threads, run, s)
    ensures Inv(s) && IdleInv(s) && s.pruneAfter == pruneAfter
  {
    InvInit(pruneAfter, threads);
    InvReached(ANY, Init(pruneAfter, threads), run);
    IdleReached(ANY, Init(pruneAfter, threads), run);
  }

  lemma SameWindow(pruneAfter: Uint32, threads: nat, run: seq<Step>, s: State)
    requires Reaches(ANY, pruneAfter, threads, run, s)
    ensures s.pruneAfter == pruneAfter
  {
    IdleEver(pruneAfter, threads, run, s);
  }

  /** idleFlushes is the number of visits in a row that found nothing to report, as a uint32. */
  lemma IdleIsCounted(pruneAfter: Uint32, threads: nat, run: seq<Step>, s: State, c: nat)
    requires Reaches(ANY, pruneAfter, threads, run, s) && c < |s.objs| && pruneAfter > 0
    ensures s.objs[c].idleFlushes == IdleVisits(c, pruneAfter, threads, run) % 0x1_0000_0000
  {
    IdleEver(pruneAfter, threads, run, s);
    IdleTold(pruneAfter, threads, run, s, c);
    assert Counted(s, c);
  }

  /** Where Flush goes when it has found nothing to report of c. */
  lemma FindsLeads(s: State, t: nat, c: nat)
    requires Finds(s, LoadLastSent(t), c)
    ensures
      Goes(s, LoadLastSent(t)) ==
        if s.pruneAfter > 0 && Next(s.objs[c].idleFlushes) >= s.pruneAfter then Deleting(c) else Ranging
  {
  }

  lemma NextIdle(pruneAfter: Uint32, threads: nat, run: seq<Step>, s: State, c: nat)
    requires Reaches(ANY, pruneAfter, threads, run, s) && c < |s.objs| && pruneAfter > 0
    ensures Next(s.objs[c].idleFlushes) == (IdleVisits(c, pruneAfter, threads, run) + 1) % 0x1_0000_0000
  {
    IdleIsCounted(pruneAfter, threads, run, s, c);
    NextWraps(s.objs[c].idleFlushes, IdleVisits(c, pruneAfter, threads, run));
  }

  /**
   When a counter is deleted, in every interleaving: a visit of Flush that finds nothing to report goes on to
   delete it if and only if it is the pruneAfterFlushes-th in a row or later, with the count a uint32.
   */
  lemma DeletesExactly(pruneAfter: Uint32, threads: nat, run: seq<Step>, s: State, t: nat, c: nat)
    requires Reaches(ANY, pruneAfter, threads, run, s) && Finds(s, LoadLastSent(t), c)
    ensures
      Goes(s, LoadLastSent(t)) ==
        if pruneAfter > 0 && (IdleVisits(c, pruneAfter, threads, run) + 1) % 0x1_0000_0000 >= pruneAfter
        then Deleting(c) else Ranging
  {
    SameWindow(pruneAfter, threads, run, s);
    FindsLeads(s, t, c);
    if pruneAfter > 0 {
      NextIdle(pruneAfter, threads, run, s, c);
    }
  }

  lemma DeletingIsOld(s: State, t: nat, c: nat)
    requires Inv(s) && IdleInv(s) && Can(s, Delete(t)) && c == s.pcs[t].c
    ensures s.epoch - s.objs[c].since >= s.objs[c].zeros >= s.pruneAfter > 0
  {
    assert PcOk(s, t, s.pcs[t]) && HandOk(s, s.pcs[t]) && Counted(s, c);
  }

  /**
   Idle bound: in every interleaving, a counter is deleted only after at least pruneAfterFlushes visits in a
   row that found nothing to report since its last report, each by another Flush call.
   */
  lemma DeletedLate(pruneAfter: Uint32, threads: nat, run: seq<Step>, s: State, t: nat, c: nat)
    requires Reaches(ANY, pruneAfter, threads, run, s) && Can(s, Delete(t)) && c == s.pcs[t].c
    ensures
      FlushCalls(c, pruneAfter, threads, run) >= IdleVisits(c, pruneAfter, threads, run) >= pruneAfter > 0
  {
    IdleEver(pruneAfter, threads, run, s);
    DeletingIsOld(s, t, c);
    IdleTold(pruneAfter, threads, run, s, c);
  }

  /**
   With flushes `interval` seconds apart, a counter is deleted only when the requested idle seconds have
   passed since its last report, provided the request is honoured.
   */
  lemma SurvivesIdleSeconds(
      seconds: Int64, variable: EnvInt, interval: Int64, threads: nat, run: seq<Step>, s: State, t: nat, c: nat)
    requires seconds > 0 && Interval(variable, interval) && Honoured(seconds, interval)
    requires Reaches(ANY, PruneAfterFlushes(Value(seconds), variable), threads, run, s)
    requires Can(s, Delete(t)) && c == s.pcs[t].c
    ensures FlushCalls(c, PruneAfterFlushes(Value(seconds), variable), threads, run) * interval >= seconds
  {
    var p := PruneAfterFlushes(Value(seconds), variable);
    DeletedLate(p, threads, run, s, t, c);
    SurvivesRequest(seconds, interval);
    Multiply(p, FlushCalls(c, p, threads, run), interval);
  }
}
