/**
 One counter object per name: what every name has as long as no counter was looked up again after it was
 pruned, and always when pruning is disabled. Then only Flush latches, and in every interleaving of Adds
 lastSentValue never passes currentValue and the books are exact.
 */
module CounterUnique {
  import opened Word64
  import opened CounterProtocol
  import opened CounterOrphans
  import opened CounterHistory
  import opened CounterStranding
  import opened CounterExact
  import opened CounterQuiet

  predicate UniqueNames(s: State) {
    forall c: nat, o: nat :: c < o < |s.objs| ==> s.objs[c].name != s.objs[o].name
  }

  lemma NamesKept(s: State, a: Step)
    requires Inv(s) && Can(s, a) && UniqueNames(Do(s, a))
    ensures UniqueNames(s)
  {
    assert PcOk(s, a.t, s.pcs[a.t]);
    StepKeeps(s, a);
  }

  /** With one object per name only Flush latches, and flushMu keeps its latches apart. */
  lemma OnlyFlushLatches(s: State, a: Step)
    requires Inv(s) && Can(s, a) && UniqueNames(s)
    ensures SOLO(s, a)
  {
    if a.LoadCurrent? {
      var c := s.pcs[a.t].c;
      assert PcOk(s, a.t, s.pcs[a.t]);
      forall u: nat | u < |s.pcs|
        ensures !InWindow(s.pcs[u], c)
      {
        assert PcOk(s, u, s.pcs[u]);
      }
    }
  }

  /** When every name ever had one counter object, latches never overlap. */
  lemma {:induction false} UniqueNamesAreSolo(pruneAfter: Uint32, threads: nat, run: seq<Step>, s: State)
    requires Reaches(ANY, pruneAfter, threads, run, s) && UniqueNames(s)
    ensures Reaches(SOLO, pruneAfter, threads, run, s)
    ensures AddsOnly(run) ==> Reaches(ADDS, pruneAfter, threads, run, s)
  {
    if run != [] {
      var before, a := run[..|run| - 1], run[|run| - 1];
      var m := Exec(ANY, Init(pruneAfter, threads), before).value;
      InvInit(pruneAfter, threads);
      InvReached(ANY, Init(pruneAfter, threads), before);
      NamesKept(m, a);
      UniqueNamesAreSolo(pruneAfter, threads, before, m);
      OnlyFlushLatches(m, a);
      assert a in run;
    }
  }

  lemma NeverDeleted(s: State, c: nat)
    requires Inv(s) && s.pruneAfter == 0 && c < |s.objs|
    ensures s.InMap(c)
  {
    assert Attached(s, c);
    if t: nat :| t < |s.pcs| && s.pcs[t] == Marking(c) {
      assert !PcOk(s, t, s.pcs[t]);
    }
  }

  /** With pruning disabled every counter stays in the map, so every name has one counter object. */
  lemma WithoutPruning(threads: nat, run: seq<Step>, s: State)
    requires Reaches(ANY, 0, threads, run, s)
    ensures UniqueNames(s)
  {
    InvInit(0, threads);
    InvReached(ANY, Init(0, threads), run);
    forall c: nat, o: nat | c < o < |s.objs|
      ensures s.objs[c].name != s.objs[o].name
    {
      NeverDeleted(s, c);
      NeverDeleted(s, o);
    }
  }

  predicate Named(s: State, n: string) {
    exists c: nat :: c < |s.objs| && s.objs[c].name == n
  }

  /** The one counter of a name has counted all that was written to it, and nothing was written elsewhere. */
  predicate Counts(s: State) {
    && (forall c: nat :: c < |s.objs| ==> s.objs[c].current == Total(s.written, s.objs[c].name) % MODULUS)
    && forall n :: n in s.written ==> Named(s, n)
  }

  lemma NamedStays(s: State, a: Step, n: string)
    requires Inv(s) && Can(s, a) && Named(s, n)
    ensures Named(Do(s, a), n)
  {
    assert PcOk(s, a.t, s.pcs[a.t]);
    StepKeeps(s, a);
    var c: nat :| c < |s.objs| && s.objs[c].name == n;
    assert Do(s, a).objs[c].name == n;
  }

  lemma CountsOne(s: State, a: Step, c: nat)
    requires Can(s, a) && a.Add? && UniqueNames(s) && c < |s.objs| && Counts(s)
    ensures
      var r := Do(s, a);
      c < |r.objs| && r.objs[c].current == Total(r.written, r.objs[c].name) % MODULUS
  {
    if c == a.c {
      Wraps(s.objs[c].current, a.delta);
    } else {
      assert s.objs[c].name != s.objs[a.c].name;
    }
  }

  lemma CountsAdd(s: State, a: Step)
    requires Inv(s) && Can(s, a) && a.Add? && UniqueNames(s) && Counts(s)
    ensures Counts(Do(s, a))
  {
    var r := Do(s, a);
    forall c: nat | c < |r.objs|
      ensures r.objs[c].current == Total(r.written, r.objs[c].name) % MODULUS
    {
      CountsOne(s, a, c);
    }
    forall n | n in r.written
      ensures Named(r, n)
    {
      if n == s.objs[a.c].name {
        assert r.objs[a.c].name == n;
      } else {
        NamedStays(s, a, n);
      }
    }
  }

  lemma CountsStore(s: State, a: Step)
    requires Inv(s) && Can(s, a) && a.Store? && UniqueNames(Do(s, a)) && Counts(s)
    ensures Counts(Do(s, a))
  {
    var r, n := Do(s, a), s.pcs[a.t].name;
    if n !in s.cmap {
      assert r.objs[|s.objs|].name == n && r.written == s.written;
      assert forall c: nat :: c < |s.objs| ==> r.objs[c] == s.objs[c];
      assert Total(s.written, n) == 0;
    }
    forall m | m in r.written
      ensures Named(r, m)
    {
      NamedStays(s, a, m);
    }
  }

  lemma CurrentKept(s: State, a: Step)
    requires Inv(s) && Can(s, a) && !a.Add? && !a.Set? && !a.Store? && UniqueNames(s)
    ensures |Do(s, a).objs| == |s.objs|
    ensures
      forall c: nat :: c < |s.objs| ==>
        Do(s, a).objs[c].current == s.objs[c].current && Do(s, a).objs[c].name == s.objs[c].name
  {
    assert PcOk(s, a.t, s.pcs[a.t]);
  }

  /** The other steps count nothing: with one object per name there is nothing to fold into. */
  lemma CountsElse(s: State, a: Step)
    requires Inv(s) && Can(s, a) && !a.Add? && !a.Set? && !a.Store? && UniqueNames(s) && Counts(s)
    ensures Counts(Do(s, a))
  {
    var r := Do(s, a);
    assert r.written == s.written by {
      WrittenGrows(s, a, "");
    }
    CurrentKept(s, a);
    forall m | m in r.written
      ensures Named(r, m)
    {
      NamedStays(s, a, m);
    }
  }

  lemma {:induction false} CountsReached(pruneAfter: Uint32, threads: nat, run: seq<Step>, s: State)
    requires Reaches(ANY, pruneAfter, threads, run, s) && UniqueNames(s) && AddsOnly(run)
    ensures Counts(s)
  {
    if run != [] {
      var before, a := run[..|run| - 1], run[|run| - 1];
      var m := Exec(ANY, Init(pruneAfter, threads), before).value;
      assert a in run;
      InvInit(pruneAfter, threads);
      InvReached(ANY, Init(pruneAfter, threads), before);
      NamesKept(m, a);
      CountsReached(pruneAfter, threads, before, m);
      if a.Add? {
        CountsAdd(m, a);
      } else if a.Store? {
        CountsStore(m, a);
      } else {
        CountsElse(m, a);
      }
    }
  }

  /**
   Exact counting when only Flush latches, in every interleaving of Adds, below 2^64 for the name: what the run
   reported, what is due and what is in hand add up to what it wrote, as natural numbers.
   */
  lemma ExactWhenUnique(pruneAfter: Uint32, threads: nat, run: seq<Step>, s: State, n: string)
    requires Reaches(ANY, pruneAfter, threads, run, s) && UniqueNames(s) && AddsOnly(run)
    requires Given(n, pruneAfter, threads, run) < MODULUS
    ensures AddsUp(pruneAfter, threads, run, s, n)
  {
    UniqueNamesAreSolo(pruneAfter, threads, run, s);
    ExactCounting(pruneAfter, threads, run, s, n);
  }

  lemma AheadOfNothing(s: State, c: nat, n: string)
    requires c < |s.objs| && n == s.objs[c].name && Counts(s) && Balanced(s, n) && Total(s.written, n) < MODULUS
    ensures s.objs[c].lastSent <= s.objs[c].current == Total(s.written, n)
  {
    DueBounded(s, n, c);
  }

  /** lastSentValue is never ahead of currentValue, which is all that the run wrote to the name. */
  lemma NeverAhead(pruneAfter: Uint32, threads: nat, run: seq<Step>, s: State, c: nat, n: string)
    requires Reaches(ANY, pruneAfter, threads, run, s) && UniqueNames(s) && AddsOnly(run)
    requires c < |s.objs| && n == s.objs[c].name && Given(n, pruneAfter, threads, run) < MODULUS
    ensures s.objs[c].lastSent <= s.objs[c].current == Given(n, pruneAfter, threads, run)
  {
    Told(ANY, pruneAfter, threads, run, s, n);
    CountsReached(pruneAfter, threads, run, s);
    UniqueNamesAreSolo(pruneAfter, threads, run, s);
    BooksReached(pruneAfter, threads, run, s, n);
    AheadOfNothing(s, c, n);
  }

  /** No FlushCounter value is zero or an underflow. */
  lemma ReportsWhenUnique(pruneAfter: Uint32, threads: nat, run: seq<Step>, s: State, t: nat, n: string)
    requires Reaches(ANY, pruneAfter, threads, run, s) && UniqueNames(s) && AddsOnly(run)
    requires Can(s, Deliver(t)) && !s.pcs[t].goal.Fold? && s.pcs[t].name == n
    requires Given(n, pruneAfter, threads, run) < MODULUS
    ensures 0 < s.pcs[t].delta <= Given(n, pruneAfter, threads, run) - Handed(n, pruneAfter, threads, run)
  {
    UniqueNamesAreSolo(pruneAfter, threads, run, s);
    ReportsAreGenuine(pruneAfter, threads, run, s, t, n);
  }

  /** After the writers have finished, the next Flush has reported the sum of all Adds. */
  lemma NextFlushWhenUnique(
      pruneAfter: Uint32, threads: nat, run: seq<Step>, s: State, t: nat, flush: seq<Step>, r: State, n: string)
    requires Reaches(ANY, pruneAfter, threads, run, s) && UniqueNames(s) && AddsOnly(run) && AllIdle(s)
    requires FlushedTo(s, t, flush, r) && Given(n, pruneAfter, threads, run) < MODULUS
    ensures Handed(n, pruneAfter, threads, run + [Acquire(t)] + flush) == Given(n, pruneAfter, threads, run)
  {
    UniqueNamesAreSolo(pruneAfter, threads, run, s);
    NextFlushReportsAll(pruneAfter, threads, run, s, t, flush, r, n);
  }
}
