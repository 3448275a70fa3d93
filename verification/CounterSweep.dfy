/**
 Exactly what a Flush does that no other operation overlaps, after any run of any interleaving: which counters
 it reports and with what, which it takes out of the map, and what it leaves in each of them.
 */
module CounterSweep {
  import opened Options
  import opened Word64
  import opened CounterProtocol
  import opened CounterOrphans
  import opened CounterStranding
  import opened CounterHistory
  import opened CounterQuiet

  /** What latch would hand out. */
  function Owes(o: Counter): Word {
    Minus(o.current, o.lastSent)
  }

  /** The counter owes nothing and has been idle for too long. */
  predicate Expired(o: Counter, pruneAfter: Uint32) {
    o.current == o.lastSent && pruneAfter > 0 && Next(o.idleFlushes) >= pruneAfter
  }

  /** What Flush leaves of a counter in the map. */
  function Swept(o: Counter, pruneAfter: Uint32): Counter {
    if o.current != o.lastSent then o.(lastSent := o.current, idleFlushes := 0, detached := false)
    else if pruneAfter == 0 then o
    else o.(idleFlushes := Next(o.idleFlushes), detached := o.detached || Next(o.idleFlushes) >= pruneAfter)
  }

  /** Equal but for the history. */
  predicate Same(o: Counter, q: Counter) {
    && q.name == o.name && q.current == o.current && q.lastSent == o.lastSent
    && q.idleFlushes == o.idleFlushes && q.detached == o.detached
  }

  /** Flush has not touched c. */
  predicate Untouched(s0: State, s: State, c: nat)
    requires c < |s0.objs| == |s.objs|
  {
    s.objs[c] == s0.objs[c] && (s.InMap(c) <==> s0.InMap(c))
  }

  /** Flush is done with c. */
  predicate Finished(s0: State, s: State, c: nat)
    requires c < |s0.objs| == |s.objs|
  {
    var o := s0.objs[c];
    Same(Swept(o, s0.pruneAfter), s.objs[c]) && (s.InMap(c) <==> !Expired(o, s0.pruneAfter))
  }

  /** Flush has c in hand: how far it has come with it. */
  predicate Midway(s0: State, s: State, pc: Pc, c: nat)
    requires c < |s0.objs| == |s.objs|
  {
    var o, q := s0.objs[c], s.objs[c];
    var aged := o.(idleFlushes := Next(o.idleFlushes));
    match pc
    case Holding(_, _, _, d) => s.InMap(c) && o.current != o.lastSent && d == Owes(o) && q == o.(lastSent := o.current)
    case Clearing(_) =>
      s.InMap(c) && o.current != o.lastSent && Same(o.(lastSent := o.current, idleFlushes := 0), q)
    case Deleting(_) => Expired(o, s0.pruneAfter) && s.InMap(c) && Same(aged, q)
    case Marking(_) => Expired(o, s0.pruneAfter) && !s.InMap(c) && Same(aged, q)
    case Latching(_, g) =>
      if g == Report then Untouched(s0, s, c)
      else Expired(o, s0.pruneAfter) && !s.InMap(c) && Same(aged.(detached := true), q)
    case Loaded(_, g, _) =>
      if g == Report then Untouched(s0, s, c)
      else Expired(o, s0.pruneAfter) && !s.InMap(c) && Same(aged.(detached := true), q)
    case Ready(_, _, _, _) => Untouched(s0, s, c)
    case _ => true
  }

  /** The position is about counter c. */
  predicate About(pc: Pc, c: nat) {
    match pc
    case Idle => false
    case Looking(_) => false
    case Ranging => false
    case _ => pc.c == c
  }

  predicate Stage(s0: State, s: State, pc: Pc, c: nat)
    requires c < |s0.objs| == |s.objs|
  {
    if !s0.InMap(c) then Untouched(s0, s, c) && !About(pc, c)
    else if s0.objs[c].name !in s.seen then Untouched(s0, s, c)
    else if About(pc, c) then Midway(s0, s, pc, c)
    else Finished(s0, s, c)
  }

  /** Flush has yet to report what the counter of name n in the map owes. */
  predicate Unsent(s0: State, s: State, pc: Pc, n: string)
    requires n in s0.cmap
  {
    n !in s.seen || AtReport(pc, s0.cmap[n]) || (pc.Holding? && pc.c == s0.cmap[n])
  }

  /** What Flush has reported for name n since state s0. */
  predicate SentSince(s0: State, s: State, pc: Pc, n: string) {
    Total(s.sink, n) - Total(s0.sink, n) ==
      if n in s0.cmap && s0.cmap[n] < |s0.objs| && !Unsent(s0, s, pc, n) then Owes(s0.objs[s0.cmap[n]]) else 0
  }

  ghost predicate Sweeping(s0: State, s: State, t: nat) {
    && Quiet(s, t) && MapOk(s0) && |s.objs| == |s0.objs| && s.pruneAfter == s0.pruneAfter && s.must == s0.cmap.Keys
    && (forall c: nat :: c < |s.objs| ==> Stage(s0, s, s.pcs[t], c))
    && forall n :: SentSince(s0, s, s.pcs[t], n)
  }

  lemma StageVisit(s0: State, s: State, t: nat, n: string, c: nat)
    requires Inv(s) && Sweeping(s0, s, t) && Can(s, Visit(t, n)) && c < |s.objs|
    ensures
      var r := Do(s, Visit(t, n));
      |r.objs| == |s.objs| && t < |r.pcs| && Stage(s0, r, r.pcs[t], c)
  {
    assert PcOk(s, t, s.pcs[t]) && Stage(s0, s, s.pcs[t], c);
  }

  lemma StageLoad(s0: State, s: State, a: Step, t: nat, c: nat)
    requires Inv(s) && Sweeping(s0, s, t) && Can(s, a) && a.t == t && c < |s.objs| && a.LoadCurrent?
    ensures |Do(s, a).objs| == |s.objs| && t < |Do(s, a).pcs| && Stage(s0, Do(s, a), Do(s, a).pcs[t], c)
  {
    assert PcOk(s, t, s.pcs[t]) && Stage(s0, s, s.pcs[t], c);
  }

  lemma StageFinds(s0: State, s: State, a: Step, t: nat, c: nat)
    requires Inv(s) && Sweeping(s0, s, t) && Can(s, a) && a.t == t && c < |s.objs| && a.LoadLastSent?
    requires s.pcs[t].goal == Report
    ensures |Do(s, a).objs| == |s.objs| && t < |Do(s, a).pcs| && Stage(s0, Do(s, a), Do(s, a).pcs[t], c)
  {
    assert PcOk(s, t, s.pcs[t]) && Stage(s0, s, s.pcs[t], c);
  }

  lemma StageRelatches(s0: State, s: State, a: Step, t: nat, c: nat)
    requires Inv(s) && Sweeping(s0, s, t) && Can(s, a) && a.t == t && c < |s.objs| && a.LoadLastSent?
    requires s.pcs[t].goal != Report
    ensures |Do(s, a).objs| == |s.objs| && t < |Do(s, a).pcs| && Stage(s0, Do(s, a), Do(s, a).pcs[t], c)
  {
    assert PcOk(s, t, s.pcs[t]) && Stage(s0, s, s.pcs[t], c);
  }

  lemma StageCommit(s0: State, s: State, a: Step, t: nat, c: nat)
    requires Inv(s) && Sweeping(s0, s, t) && Can(s, a) && a.t == t && c < |s.objs| && (a.Commit? || a.Deliver?)
    ensures |Do(s, a).objs| == |s.objs| && t < |Do(s, a).pcs| && Stage(s0, Do(s, a), Do(s, a).pcs[t], c)
  {
    assert PcOk(s, t, s.pcs[t]) && Stage(s0, s, s.pcs[t], c);
  }

  lemma StageFlag(s0: State, s: State, a: Step, t: nat, c: nat)
    requires Inv(s) && Sweeping(s0, s, t) && Can(s, a) && a.t == t && c < |s.objs| && (a.Clear? || a.Mark?)
    ensures |Do(s, a).objs| == |s.objs| && t < |Do(s, a).pcs| && Stage(s0, Do(s, a), Do(s, a).pcs[t], c)
  {
    assert PcOk(s, t, s.pcs[t]) && Stage(s0, s, s.pcs[t], c);
  }

  lemma StageDelete(s0: State, s: State, a: Step, t: nat, c: nat)
    requires Inv(s) && Sweeping(s0, s, t) && Can(s, a) && a.t == t && c < |s.objs| && a.Delete?
    ensures |Do(s, a).objs| == |s.objs| && t < |Do(s, a).pcs| && Stage(s0, Do(s, a), Do(s, a).pcs[t], c)
  {
    assert PcOk(s, t, s.pcs[t]) && Stage(s0, s, s.pcs[t], c);
  }

  lemma StageStep(s0: State, s: State, a: Step, t: nat, c: nat)
    requires Inv(s) && Sweeping(s0, s, t) && Can(s, a) && a.t == t && !a.Release? && c < |s.objs|
    ensures |Do(s, a).objs| == |s.objs| && t < |Do(s, a).pcs| && Stage(s0, Do(s, a), Do(s, a).pcs[t], c)
  {
    if a.Visit? {
      StageVisit(s0, s, t, a.name, c);
    } else if a.LoadCurrent? {
      StageLoad(s0, s, a, t, c);
    } else if a.LoadLastSent? {
      if s.pcs[t].goal == Report {
        StageFinds(s0, s, a, t, c);
      } else {
        StageRelatches(s0, s, a, t, c);
      }
    } else if a.Commit? || a.Deliver? {
      StageCommit(s0, s, a, t, c);
    } else if a.Delete? {
      StageDelete(s0, s, a, t, c);
    } else {
      StageFlag(s0, s, a, t, c);
    }
  }
  lemma SentVisit(s0: State, s: State, t: nat, k: string, n: string)
    requires Inv(s) && Sweeping(s0, s, t) && Can(s, Visit(t, k))
    ensures var r := Do(s, Visit(t, k)); t < |r.pcs| && SentSince(s0, r, r.pcs[t], n)
  {
    assert PcOk(s, t, s.pcs[t]) && Stage(s0, s, s.pcs[t], s.cmap[k]) && SentSince(s0, s, s.pcs[t], n);
  }

  lemma SentDeliver(s0: State, s: State, t: nat, n: string)
    requires Inv(s) && Sweeping(s0, s, t) && Can(s, Deliver(t))
    ensures var r := Do(s, Deliver(t)); t < |r.pcs| && SentSince(s0, r, r.pcs[t], n)
  {
    assert PcOk(s, t, s.pcs[t]) && Stage(s0, s, s.pcs[t], s.pcs[t].c) && SentSince(s0, s, s.pcs[t], n);
  }

  lemma SentElse(s0: State, s: State, a: Step, t: nat, n: string)
    requires Inv(s) && Sweeping(s0, s, t) && Can(s, a) && a.t == t && !a.Release? && !a.Visit? && !a.Deliver?
    ensures t < |Do(s, a).pcs| && SentSince(s0, Do(s, a), Do(s, a).pcs[t], n)
  {
    assert PcOk(s, t, s.pcs[t]) && SentSince(s0, s, s.pcs[t], n);
    assert s.pcs[t] != Ranging;
    assert Stage(s0, s, s.pcs[t], s.pcs[t].c);
  }

  lemma RangeKept(s: State, a: Step, t: nat)
    requires Inv(s) && Quiet(s, t) && Can(s, a) && a.t == t && !a.Release?
    ensures Do(s, a).must == s.must && Do(s, a).pruneAfter == s.pruneAfter && |Do(s, a).objs| == |s.objs|
  {
    assert PcOk(s, t, s.pcs[t]);
  }

  lemma SweepStep(s0: State, s: State, a: Step, t: nat)
    requires Inv(s) && Sweeping(s0, s, t) && Can(s, a) && a.t == t && !a.Release?
    ensures Sweeping(s0, Do(s, a), t)
  {
    var r := Do(s, a);
    QuietStep(s, a, t);
    RangeKept(s, a, t);
    forall c: nat | c < |r.objs|
      ensures Stage(s0, r, r.pcs[t], c)
    {
      StageStep(s0, s, a, t, c);
    }
    forall n
      ensures SentSince(s0, r, r.pcs[t], n)
    {
      if a.Visit? {
        SentVisit(s0, s, t, a.name, n);
      } else if a.Deliver? {
        SentDeliver(s0, s, t, n);
      } else {
        SentElse(s0, s, a, t, n);
      }
    }
  }

  lemma SweepStart(s: State, t: nat)
    requires Inv(s) && AllIdle(s) && Can(s, Acquire(t))
    ensures Sweeping(s, Do(s, Acquire(t)), t)
  {
    QuietStart(s, t);
  }

  /** What the Flush from state s0 to state r did to counter c. */
  predicate Done(s0: State, r: State, c: nat)
    requires c < |s0.objs| == |r.objs|
  {
    if s0.InMap(c) then Finished(s0, r, c) else Untouched(s0, r, c)
  }

  /** What it reported for name n. */
  predicate Sent(s0: State, r: State, n: string) {
    Total(r.sink, n) - Total(s0.sink, n) ==
      if n in s0.cmap && s0.cmap[n] < |s0.objs| then Owes(s0.objs[s0.cmap[n]]) else 0
  }

  lemma SweepEnd(s0: State, s: State, t: nat)
    requires Inv(s) && Sweeping(s0, s, t) && Can(s, Release(t))
    ensures
      var r := Do(s, Release(t));
      && |r.objs| == |s0.objs| && (forall c: nat :: c < |r.objs| ==> Done(s0, r, c)) && forall n :: Sent(s0, r, n)
  {
    var r := Do(s, Release(t));
    forall c: nat | c < |r.objs|
      ensures Done(s0, r, c)
    {
      assert Stage(s0, s, s.pcs[t], c);
      assert s0.InMap(c) ==> s0.objs[c].name in s0.cmap.Keys;
    }
    forall n
      ensures Sent(s0, r, n)
    {
      assert SentSince(s0, s, s.pcs[t], n);
      assert n in s0.cmap ==> n in s0.cmap.Keys;
    }
  }

  /** The Flush is under way, or over. */
  ghost predicate SweepingOrOver(s0: State, s: State, t: nat) {
    if s.lock == None
    then |s.objs| == |s0.objs| && (forall c: nat :: c < |s.objs| ==> Done(s0, s, c)) && forall n :: Sent(s0, s, n)
    else Sweeping(s0, s, t)
  }

  lemma {:induction false} SweepReached(s0: State, s: State, t: nat, run: seq<Step>)
    requires Inv(s) && Sweeping(s0, s, t) && Exec(By(t), s, run).Some?
    ensures Inv(Exec(By(t), s, run).value) && SweepingOrOver(s0, Exec(By(t), s, run).value, t)
  {
    if run != [] {
      var a := run[|run| - 1];
      SweepReached(s0, s, t, run[..|run| - 1]);
      var m := Exec(By(t), s, run[..|run| - 1]).value;
      InvStep(m, a);
      if a.Release? {
        SweepEnd(s0, m, t);
      } else {
        SweepStep(s0, m, a, t);
      }
    }
  }

  lemma FlushDone(pruneAfter: Uint32, threads: nat, run: seq<Step>, s: State, t: nat, flush: seq<Step>, r: State)
    requires Reaches(ANY, pruneAfter, threads, run, s) && AllIdle(s) && FlushedTo(s, t, flush, r)
    ensures s.pruneAfter == pruneAfter && |r.objs| == |s.objs|
    ensures forall c: nat :: c < |s.objs| ==> Done(s, r, c)
    ensures forall n :: Sent(s, r, n)
  {
    InvInit(pruneAfter, threads);
    InvReached(ANY, Init(pruneAfter, threads), run);
    SweepStart(s, t);
    InvStep(s, Acquire(t));
    SweepReached(s, Do(s, Acquire(t)), t, flush);
  }

  /**
   After every run of every interleaving, a Flush that no other operation overlaps takes a counter out of the
   map if and only if it owes nothing and this is its pruneAfterFlushes-th idle Flush in a row or later. The
   idle count of the others goes up by one, or to 0 when something was reported. Counters outside the map, and
   all values, stay as they are.
   */
  lemma FlushSweeps(
      pruneAfter: Uint32, threads: nat, run: seq<Step>, s: State, t: nat, flush: seq<Step>, r: State, c: nat)
    requires Reaches(ANY, pruneAfter, threads, run, s) && AllIdle(s) && FlushedTo(s, t, flush, r) && c < |s.objs|
    ensures |r.objs| == |s.objs| && r.objs[c].current == s.objs[c].current
    ensures
      var o, q := s.objs[c], r.objs[c];
      var owes := o.current != o.lastSent;
      if !s.InMap(c) then q == o && !r.InMap(c)
      else
        && (r.InMap(c) <==> owes || pruneAfter == 0 || Next(o.idleFlushes) < pruneAfter)
        && q.lastSent == o.current
        && q.idleFlushes == (if owes then 0 else if pruneAfter == 0 then o.idleFlushes else Next(o.idleFlushes))
        && q.detached == (!r.InMap(c) || (o.detached && !owes))
  {
    FlushDone(pruneAfter, threads, run, s, t, flush, r);
    assert Done(s, r, c);
  }

  /** And it reports, for each name, exactly what the counter in the map owes, and nothing for any other. */
  lemma FlushSends(
      pruneAfter: Uint32, threads: nat, run: seq<Step>, s: State, t: nat, flush: seq<Step>, r: State, n: string)
    requires Reaches(ANY, pruneAfter, threads, run, s) && AllIdle(s) && FlushedTo(s, t, flush, r)
    ensures
      Handed(n, pruneAfter, threads, run + [Acquire(t)] + flush) - Handed(n, pruneAfter, threads, run) ==
        if n in s.cmap && s.cmap[n] < |s.objs| then Owes(s.objs[s.cmap[n]]) else 0
  {
    FlushDone(pruneAfter, threads, run, s, t, flush, r);
    FlushTold(ANY, pruneAfter, threads, run, s, t, flush, r, n);
    Told(ANY, pruneAfter, threads, run, s, n);
    assert Sent(s, r, n);
  }
}
