/**
 Exact counting. When callers only Add, no two latches of a counter overlap and less than 2^64 is
 written to a name, the books of that name balance as natural numbers: nothing is counted twice,
 lost, or reported as an underflowed difference.
 */
module CounterExact {
  import opened Word64
  import opened Sums
  import opened CounterProtocol
  import opened CounterOrphans
  import opened CounterHistory
  import opened CounterConservation
  import opened CounterStranding

  const ADDS: (State, Step) -> bool := (s: State, a: Step) => SOLO(s, a) && !a.Set?

  predicate AddsOnly(run: seq<Step>) {
    forall a :: a in run ==> !a.Set?
  }

  /** What a counter of name n owes, as latch would compute it. */
  function Due(n: string): Counter -> int {
    (o: Counter) => if o.name == n then Minus(o.current, o.lastSent) else 0
  }

  predicate Balanced(s: State, n: string) {
    && Total(s.sink, n) + Sum(Due(n), s.objs) + Sum(Held(n), s.pcs) == Total(s.written, n)
    && 0 <= Total(s.sink, n)
  }

  /** What goroutine t has read of its counter lies between lastSentValue and currentValue. */
  predicate Between(s: State, t: nat)
    requires t < |s.pcs|
  {
    var pc := s.pcs[t];
    (pc.Loaded? || pc.Ready?) && pc.c < |s.objs| ==>
      Minus(pc.value, s.objs[pc.c].lastSent) <= Minus(s.objs[pc.c].current, s.objs[pc.c].lastSent)
  }

  /** Goroutine t is latching a counter of name n. */
  predicate Reading(s: State, t: nat, n: string)
    requires t < |s.pcs|
  {
    var pc := s.pcs[t];
    (pc.Loaded? || pc.Ready?) && pc.c < |s.objs| && s.objs[pc.c].name == n
  }

  predicate Exact(s: State, n: string) {
    Total(s.written, n) < MODULUS ==>
      && Balanced(s, n)
      && forall t: nat :: t < |s.pcs| && Reading(s, t, n) ==> Between(s, t)
  }

  /** Raising a counter by d raises what it owes by d while that stays below 2^64. */
  lemma DueRaised(current: Word, last: Word, d: Word)
    requires Minus(current, last) + d < MODULUS
    ensures Minus(Plus(current, d), last) == Minus(current, last) + d
  {
  }

  /** Committing a value between lastSentValue and currentValue lowers what is owed by what is taken. */
  lemma DueTaken(current: Word, last: Word, value: Word)
    requires Minus(value, last) <= Minus(current, last)
    ensures Minus(current, value) == Minus(current, last) - Minus(value, last)
  {
  }

  lemma DueBounded(s: State, n: string, c: nat)
    requires Balanced(s, n) && c < |s.objs|
    ensures 0 <= Due(n)(s.objs[c]) <= Total(s.written, n) - Total(s.sink, n)
  {
    SumBound(Due(n), s.objs, c);
    SumNatural(Held(n), s.pcs);
  }

  /** No part of the books exceeds what was written. */
  lemma PartsBounded(s: State, n: string, c: nat, t: nat)
    requires Balanced(s, n) && c < |s.objs| && t < |s.pcs|
    ensures 0 <= Due(n)(s.objs[c]) && 0 <= Held(n)(s.pcs[t])
    ensures Total(s.sink, n) + Due(n)(s.objs[c]) + Held(n)(s.pcs[t]) <= Total(s.written, n)
  {
    SumBound(Due(n), s.objs, c);
    SumBound(Held(n), s.pcs, t);
  }

  lemma BooksMoved(s: State, r: State, t: nat, c: nat, n: string)
    requires t < |s.pcs| && c < |s.objs| == |r.objs| && |r.pcs| == |s.pcs|
    requires r.objs == s.objs[c := r.objs[c]] && r.pcs == s.pcs[t := r.pcs[t]]
    ensures Sum(Due(n), r.objs) == Sum(Due(n), s.objs) - Due(n)(s.objs[c]) + Due(n)(r.objs[c])
    ensures Sum(Held(n), r.pcs) == Sum(Held(n), s.pcs) - Held(n)(s.pcs[t]) + Held(n)(r.pcs[t])
  {
    SumUpdate(Due(n), s.objs, c, r.objs[c]);
    SumUpdate(Held(n), s.pcs, t, r.pcs[t]);
  }

  lemma BooksAdd(s: State, a: Step, n: string)
    requires Inv(s) && Can(s, a) && a.Add? && Balanced(s, n) && Total(Do(s, a).written, n) < MODULUS
    ensures Balanced(Do(s, a), n)
  {
    var r := Do(s, a);
    BooksMoved(s, r, a.t, a.c, n);
    if s.objs[a.c].name == n {
      PartsBounded(s, n, a.c, a.t);
      DueRaised(s.objs[a.c].current, s.objs[a.c].lastSent, a.delta);
    }
  }

  lemma BooksFold(s: State, a: Step, n: string)
    requires MapOk(s) && Can(s, a) && PcOk(s, a.t, s.pcs[a.t]) && a.Deliver? && s.pcs[a.t].goal.Fold?
    requires Balanced(s, n) && Total(s.written, n) < MODULUS
    ensures Balanced(Do(s, a), n)
  {
    var o := s.pcs[a.t].goal.owner;
    BooksMoved(s, Do(s, a), a.t, o, n);
    if s.objs[o].name == n {
      PartsBounded(s, n, o, a.t);
      DueRaised(s.objs[o].current, s.objs[o].lastSent, s.pcs[a.t].delta);
    }
  }

  lemma BooksReport(s: State, a: Step, n: string)
    requires MapOk(s) && Can(s, a) && PcOk(s, a.t, s.pcs[a.t]) && a.Deliver? && !s.pcs[a.t].goal.Fold? && Balanced(s, n)
    ensures Balanced(Do(s, a), n)
  {
    BooksMoved(s, Do(s, a), a.t, s.pcs[a.t].c, n);
  }

  /** The compare-and-swap of a latch of a counter of name n that succeeds. */
  predicate Commits(s: State, a: Step, n: string) {
    a.Commit? && Can(s, a) && s.objs[s.pcs[a.t].c].name == n && s.objs[s.pcs[a.t].c].lastSent == s.pcs[a.t].lastSeen
  }

  lemma BooksCommit(s: State, a: Step, n: string)
    requires MapOk(s) && Can(s, a) && PcOk(s, a.t, s.pcs[a.t]) && a.Commit? && Balanced(s, n)
    ensures Balanced(Do(s, a), n) <==> (Commits(s, a, n) ==> Between(s, a.t))
  {
    var pc := s.pcs[a.t];
    BooksMoved(s, Do(s, a), a.t, pc.c, n);
    if Commits(s, a, n) && Between(s, a.t) {
      DueTaken(s.objs[pc.c].current, pc.lastSeen, pc.value);
    }
  }

  lemma BooksStill(s: State, a: Step, n: string)
    requires MapOk(s) && Can(s, a) && PcOk(s, a.t, s.pcs[a.t]) && Balanced(s, n)
    requires a.Miss? || a.Check? || a.Join? || a.LoadCurrent? || a.Acquire? || a.Visit? || a.Delete? || a.Release?
    ensures Balanced(Do(s, a), n)
  {
    SumUpdate(Held(n), s.pcs, a.t, Do(s, a).pcs[a.t]);
  }

  lemma BooksStore(s: State, a: Step, n: string)
    requires MapOk(s) && Can(s, a) && PcOk(s, a.t, s.pcs[a.t]) && Balanced(s, n) && a.Store?
    ensures Balanced(Do(s, a), n)
  {
    SumUpdate(Held(n), s.pcs, a.t, Idle);
    StoreOwesNothing(Due(n), s, a.t);
  }

  lemma ReadKeeps(s: State, t: nat, n: string)
    requires Can(s, LoadLastSent(t)) && PcOk(s, t, s.pcs[t])
    ensures
      var r, c := Do(s, LoadLastSent(t)), s.pcs[t].c;
      && |r.objs| == |s.objs| && |r.pcs| == |s.pcs| && r.sink == s.sink && r.written == s.written
      && r.objs == s.objs[c := r.objs[c]] && r.pcs == s.pcs[t := r.pcs[t]]
      && Due(n)(r.objs[c]) == Due(n)(s.objs[c]) && Held(n)(r.pcs[t]) == Held(n)(s.pcs[t])
  {
  }

  lemma BooksRead(s: State, t: nat, n: string)
    requires MapOk(s) && Can(s, LoadLastSent(t)) && PcOk(s, t, s.pcs[t]) && Balanced(s, n)
    ensures Balanced(Do(s, LoadLastSent(t)), n)
  {
    var r, c := Do(s, LoadLastSent(t)), s.pcs[t].c;
    ReadKeeps(s, t, n);
    BooksMoved(s, r, t, c, n);
  }

  lemma BooksFlag(s: State, a: Step, n: string)
    requires MapOk(s) && Can(s, a) && PcOk(s, a.t, s.pcs[a.t]) && Balanced(s, n) && (a.Clear? || a.Mark?)
    ensures Balanced(Do(s, a), n)
  {
    var r, c := Do(s, a), s.pcs[a.t].c;
    assert r.objs == s.objs[c := r.objs[c]] && r.pcs == s.pcs[a.t := r.pcs[a.t]];
    assert Due(n)(r.objs[c]) == Due(n)(s.objs[c]) && Held(n)(r.pcs[a.t]) == Held(n)(s.pcs[a.t]);
    BooksMoved(s, Do(s, a), a.t, s.pcs[a.t].c, n);
  }

  /** Callers only add, so what was written to a name never shrinks. */
  lemma WrittenGrows(s: State, a: Step, n: string)
    requires Can(s, a) && !a.Set?
    ensures Total(s.written, n) <= Total(Do(s, a).written, n)
    ensures !a.Add? ==> Do(s, a).written == s.written
  {
  }

  lemma BooksStep(s: State, a: Step, n: string)
    requires Inv(s) && Can(s, a) && !a.Set? && Balanced(s, n) && Total(Do(s, a).written, n) < MODULUS
    ensures Balanced(Do(s, a), n) <==> (Commits(s, a, n) ==> Between(s, a.t))
  {
    assert PcOk(s, a.t, s.pcs[a.t]);
    WrittenGrows(s, a, n);
    if a.Add? {
      BooksAdd(s, a, n);
    } else if a.Commit? {
      BooksCommit(s, a, n);
    } else if a.Deliver? {
      if s.pcs[a.t].goal.Fold? {
        BooksFold(s, a, n);
      } else {
        BooksReport(s, a, n);
      }
    } else if a.Store? {
      BooksStore(s, a, n);
    } else if a.LoadLastSent? {
      BooksRead(s, a.t, n);
    } else if a.Clear? || a.Mark? {
      BooksFlag(s, a, n);
    } else {
      BooksStill(s, a, n);
    }
  }

  predicate Raises(s: State, a: Step, c: nat)
    requires Can(s, a)
  {
    (a.Add? && a.c == c) || (a.Deliver? && s.pcs[a.t].goal == Fold(c))
  }

  lemma Unraised(s: State, a: Step, c: nat)
    requires Inv(s) && Can(s, a) && !a.Set? && c < |s.objs| && !InWindow(s.pcs[a.t], c) && !Raises(s, a, c)
    ensures c < |Do(s, a).objs|
    ensures Do(s, a).objs[c].current == s.objs[c].current && Do(s, a).objs[c].lastSent == s.objs[c].lastSent
  {
    assert PcOk(s, a.t, s.pcs[a.t]);
  }

  lemma Raised(s: State, a: Step, n: string, c: nat)
    requires Inv(s) && Can(s, a) && c < |s.objs| && s.objs[c].name == n && Raises(s, a, c)
    requires Balanced(s, n) && Total(s.written, n) < MODULUS && Total(Do(s, a).written, n) < MODULUS
    ensures c < |Do(s, a).objs|
    ensures
      var o := Do(s, a).objs[c];
      o.lastSent == s.objs[c].lastSent && Due(n)(s.objs[c]) <= Minus(o.current, o.lastSent)
  {
    assert PcOk(s, a.t, s.pcs[a.t]);
    PartsBounded(s, n, c, a.t);
    DueRaised(s.objs[c].current, s.objs[c].lastSent, if a.Add? then a.delta else s.pcs[a.t].delta);
  }

  /** A latch of another goroutine on a counter of name n keeps its place when the counter is raised. */
  lemma BetweenOther(s: State, a: Step, n: string, t: nat)
    requires Inv(s) && Can(s, a) && !a.Set? && Apart(s) && Exact(s, n) && Total(Do(s, a).written, n) < MODULUS
    requires t < |s.pcs| && t != a.t && Reading(s, t, n)
    ensures |Do(s, a).pcs| == |s.pcs| && Between(Do(s, a), t)
  {
    var c := s.pcs[t].c;
    WrittenGrows(s, a, n);
    assert PcOk(s, a.t, s.pcs[a.t]) && Between(s, t);
    StepKeeps(s, a);
    assert Do(s, a).pcs[t] == s.pcs[t];
    if Raises(s, a, c) {
      Raised(s, a, n, c);
    } else {
      Unraised(s, a, c);
    }
  }

  lemma BetweenOwn(s: State, a: Step, n: string)
    requires MapOk(s) && Can(s, a) && PcOk(s, a.t, s.pcs[a.t]) && (Reading(s, a.t, n) ==> Between(s, a.t))
    requires a.t < |Do(s, a).pcs| && Reading(Do(s, a), a.t, n)
    ensures Between(Do(s, a), a.t)
  {
    WindowStep(s, a);
    if a.LoadLastSent? {
      assert Do(s, a).pcs[a.t].Ready?;
      assert Do(s, a).objs == s.objs;
    }
  }

  lemma ExactStep(s: State, a: Step, n: string)
    requires Inv(s) && Can(s, a) && !a.Set? && Apart(s) && Exact(s, n)
    ensures Exact(Do(s, a), n)
  {
    var r := Do(s, a);
    if Total(r.written, n) < MODULUS {
      WrittenGrows(s, a, n);
      BooksStep(s, a, n);
      assert PcOk(s, a.t, s.pcs[a.t]);
      StepKeeps(s, a);
      forall t: nat | t < |r.pcs| && Reading(r, t, n)
        ensures Between(r, t)
      {
        if t == a.t {
          BetweenOwn(s, a, n);
        } else {
          assert r.pcs[t] == s.pcs[t] && PcOk(s, t, s.pcs[t]);
          BetweenOther(s, a, n, t);
        }
      }
    }
  }

  lemma {:induction false} ExactReached(s: State, run: seq<Step>, n: string)
    requires Inv(s) && SoloInv(s) && Exact(s, n) && Exec(ADDS, s, run).Some?
    ensures Exact(Exec(ADDS, s, run).value, n)
  {
    if run != [] {
      ExactReached(s, run[..|run| - 1], n);
      InvReached(ADDS, s, run[..|run| - 1]);
      SoloReached(ADDS, s, run[..|run| - 1]);
      ExactStep(Exec(ADDS, s, run[..|run| - 1]).value, run[|run| - 1], n);
    }
  }

  lemma BooksReached(pruneAfter: Uint32, threads: nat, run: seq<Step>, s: State, n: string)
    requires Reaches(ADDS, pruneAfter, threads, run, s) && Total(s.written, n) < MODULUS
    ensures Balanced(s, n)
  {
    InvInit(pruneAfter, threads);
    SumZero(Held(n), Init(pruneAfter, threads).pcs);
    ExactReached(Init(pruneAfter, threads), run, n);
  }

  /** What the run reported, what is still due and what is in hand add up to what the run wrote. */
  predicate AddsUp(pruneAfter: Uint32, threads: nat, run: seq<Step>, s: State, n: string) {
    && Handed(n, pruneAfter, threads, run) >= 0
    && Handed(n, pruneAfter, threads, run) + Sum(Due(n), s.objs) + Sum(Held(n), s.pcs)
       == Given(n, pruneAfter, threads, run)
  }

  /**
   Exact counting: with Adds only, latches that do not overlap and less than 2^64 written to n, what the run
   reported, what is still due and what is in hand add up to what it wrote, as natural numbers.
   */
  lemma ExactCounting(pruneAfter: Uint32, threads: nat, run: seq<Step>, s: State, n: string)
    requires Reaches(ADDS, pruneAfter, threads, run, s) && Given(n, pruneAfter, threads, run) < MODULUS
    ensures AddsUp(pruneAfter, threads, run, s, n)
  {
    Told(ADDS, pruneAfter, threads, run, s, n);
    BooksReached(pruneAfter, threads, run, s, n);
  }

  /** No FlushCounter value is zero, and none exceeds what was written and not yet reported. */
  lemma ReportsAreGenuine(pruneAfter: Uint32, threads: nat, run: seq<Step>, s: State, t: nat, n: string)
    requires Reaches(ADDS, pruneAfter, threads, run, s)
    requires Can(s, Deliver(t)) && !s.pcs[t].goal.Fold? && s.pcs[t].name == n
    requires Given(n, pruneAfter, threads, run) < MODULUS
    ensures 0 < s.pcs[t].delta <= Given(n, pruneAfter, threads, run) - Handed(n, pruneAfter, threads, run)
  {
    InvInit(pruneAfter, threads);
    InvReached(ADDS, Init(pruneAfter, threads), run);
    assert PcOk(s, t, s.pcs[t]);
    Told(ADDS, pruneAfter, threads, run, s, n);
    BooksReached(pruneAfter, threads, run, s, n);
    PartsBounded(s, n, s.pcs[t].c, t);
  }
}
