/**
 Conservation under every interleaving, latch taken apart into its load, load and compare-and-swap:
 whatever was written to a name has reached the sink, is still owed by one of the counter objects of
 that name, or is a latched delta in some goroutine's hand. All modulo 2^64, as uint64 counts.
 */
module CounterConservation {
  import opened Word64
  import opened Sums
  import opened CounterProtocol
  import opened CounterOrphans
  import opened CounterHistory

  /** What a counter object of name n has counted and not handed on. */
  function Owed(n: string): Counter -> int {
    (o: Counter) => if o.name == n then o.current - o.lastSent else 0
  }

  /** The latched delta for name n that a goroutine holds. */
  function Held(n: string): Pc -> int {
    (pc: Pc) => if pc.Holding? && pc.name == n then pc.delta else 0
  }

  function Balance(s: State, n: string): int {
    Total(s.sink, n) + Sum(Owed(n), s.objs) + Sum(Held(n), s.pcs) - Total(s.written, n)
  }

  /** How one step moves the balance: by what it changes at one counter and at its own position. */
  lemma Moved(s: State, r: State, t: nat, c: nat, n: string)
    requires t < |s.pcs| && c < |s.objs| == |r.objs| && |r.pcs| == |s.pcs|
    requires r.objs == s.objs[c := r.objs[c]] && r.pcs == s.pcs[t := r.pcs[t]]
    ensures
      Balance(r, n) - Balance(s, n)
      == Total(r.sink, n) - Total(s.sink, n) - (Total(r.written, n) - Total(s.written, n))
         + Owed(n)(r.objs[c]) - Owed(n)(s.objs[c]) + Held(n)(r.pcs[t]) - Held(n)(s.pcs[t])
  {
    SumUpdate(Owed(n), s.objs, c, r.objs[c]);
    SumUpdate(Held(n), s.pcs, t, r.pcs[t]);
  }

  lemma BalanceWritten(s: State, a: Step, n: string)
    requires MapOk(s) && Can(s, a) && PcOk(s, a.t, s.pcs[a.t]) && (a.Add? || a.Set?)
    ensures Congruent(Balance(Do(s, a), n), Balance(s, n))
  {
    Moved(s, Do(s, a), a.t, a.c, n);
  }

  lemma BalanceCommitted(s: State, a: Step, n: string)
    requires MapOk(s) && Can(s, a) && PcOk(s, a.t, s.pcs[a.t]) && a.Commit?
    ensures Congruent(Balance(Do(s, a), n), Balance(s, n))
  {
    var r, pc := Do(s, a), s.pcs[a.t];
    Moved(s, r, a.t, pc.c, n);
    if s.objs[pc.c].name == n && s.objs[pc.c].lastSent == pc.lastSeen {
      MinusCongruent(pc.value, pc.lastSeen);
      assert Balance(r, n) - Balance(s, n) == Minus(pc.value, pc.lastSeen) - (pc.value - pc.lastSeen);
    } else {
      assert Balance(r, n) == Balance(s, n);
    }
  }

  lemma BalanceFolded(s: State, a: Step, n: string)
    requires MapOk(s) && Can(s, a) && PcOk(s, a.t, s.pcs[a.t]) && a.Deliver? && s.pcs[a.t].goal.Fold?
    ensures Congruent(Balance(Do(s, a), n), Balance(s, n))
  {
    Moved(s, Do(s, a), a.t, s.pcs[a.t].goal.owner, n);
  }

  lemma BalanceReported(s: State, a: Step, n: string)
    requires MapOk(s) && Can(s, a) && PcOk(s, a.t, s.pcs[a.t]) && a.Deliver? && !s.pcs[a.t].goal.Fold?
    ensures Congruent(Balance(Do(s, a), n), Balance(s, n))
  {
    Moved(s, Do(s, a), a.t, s.pcs[a.t].c, n);
  }

  /** The steps that touch no counter. */
  lemma BalanceStill(s: State, a: Step, n: string)
    requires MapOk(s) && Can(s, a) && PcOk(s, a.t, s.pcs[a.t])
    requires a.Miss? || a.Check? || a.Join? || a.LoadCurrent? || a.Acquire? || a.Visit? || a.Delete? || a.Release?
    ensures Balance(Do(s, a), n) == Balance(s, n)
  {
    SumUpdate(Held(n), s.pcs, a.t, Do(s, a).pcs[a.t]);
  }

  /** LoadOrStore in a lookup adds at most a counter that owes nothing, by either measure of what is owed. */
  lemma StoreOwesNothing(owed: Counter -> int, s: State, t: nat)
    requires Can(s, Store(t)) && forall o: Counter :: o.current == o.lastSent ==> owed(o) == 0
    ensures
      var r := Do(s, Store(t));
      && r.pcs == s.pcs[t := Idle] && r.sink == s.sink && r.written == s.written
      && Sum(owed, r.objs) == Sum(owed, s.objs)
  {
    if s.pcs[t].name !in s.cmap {
      SumAppend(owed, s.objs, Counter(s.pcs[t].name, 0, 0, 0, false, s.epoch - 1, 0));
    }
  }

  lemma BalanceStored(s: State, a: Step, n: string)
    requires MapOk(s) && Can(s, a) && PcOk(s, a.t, s.pcs[a.t]) && a.Store?
    ensures Balance(Do(s, a), n) == Balance(s, n)
  {
    SumUpdate(Held(n), s.pcs, a.t, Idle);
    StoreOwesNothing(Owed(n), s, a.t);
  }

  lemma BalanceFlagged(s: State, a: Step, n: string)
    requires MapOk(s) && Can(s, a) && PcOk(s, a.t, s.pcs[a.t]) && (a.LoadLastSent? || a.Clear? || a.Mark?)
    ensures Balance(Do(s, a), n) == Balance(s, n)
  {
    Moved(s, Do(s, a), a.t, s.pcs[a.t].c, n);
  }

  lemma BalanceStep(s: State, a: Step, n: string)
    requires MapOk(s) && Can(s, a) && PcOk(s, a.t, s.pcs[a.t])
    ensures Congruent(Balance(Do(s, a), n), Balance(s, n))
  {
    if a.Add? || a.Set? {
      BalanceWritten(s, a, n);
    } else if a.Commit? {
      BalanceCommitted(s, a, n);
    } else if a.Deliver? {
      if s.pcs[a.t].goal.Fold? {
        BalanceFolded(s, a, n);
      } else {
        BalanceReported(s, a, n);
      }
    } else if a.Store? {
      BalanceStored(s, a, n);
    } else if a.LoadLastSent? || a.Clear? || a.Mark? {
      BalanceFlagged(s, a, n);
    } else {
      BalanceStill(s, a, n);
    }
  }

  lemma {:induction false} BalanceReached(rule: (State, Step) -> bool, s: State, run: seq<Step>, n: string)
    requires Inv(s) && Exec(rule, s, run).Some?
    ensures Congruent(Balance(Exec(rule, s, run).value, n), Balance(s, n))
  {
    if run != [] {
      var m, a := Exec(rule, s, run[..|run| - 1]).value, run[|run| - 1];
      InvReached(rule, s, run[..|run| - 1]);
      assert PcOk(m, a.t, m.pcs[a.t]);
      BalanceReached(rule, s, run[..|run| - 1], n);
      BalanceStep(m, a, n);
      CongruentTrans(Balance(Do(m, a), n), Balance(m, n), Balance(s, n));
    }
  }

  lemma BalanceInit(pruneAfter: Uint32, threads: nat, n: string)
    ensures Balance(Init(pruneAfter, threads), n) == 0
  {
    SumZero(Held(n), Init(pruneAfter, threads).pcs);
  }

  /** What was reported, what the counter objects owe and what is in hand make up what was written. */
  predicate Conserves(s: State, n: string, reported: int, written: int) {
    Congruent(reported + Sum(Owed(n), s.objs) + Sum(Held(n), s.pcs), written)
  }

  lemma BalanceMeans(s: State, n: string, start: int)
    requires start == 0 && Congruent(Balance(s, n), start)
    ensures Conserves(s, n, Total(s.sink, n), Total(s.written, n))
  {
    CongruentDifference(
      Balance(s, n), Total(s.sink, n) + Sum(Owed(n), s.objs) + Sum(Held(n), s.pcs), Total(s.written, n));
  }

  lemma ConservedReached(pruneAfter: Uint32, threads: nat, run: seq<Step>, s: State, n: string)
    requires Reaches(ANY, pruneAfter, threads, run, s)
    ensures Conserves(s, n, Total(s.sink, n), Total(s.written, n))
  {
    InvInit(pruneAfter, threads);
    BalanceInit(pruneAfter, threads, n);
    BalanceReached(ANY, Init(pruneAfter, threads), run, n);
    BalanceMeans(s, n, Balance(Init(pruneAfter, threads), n));
  }

  /**
   Conservation: after every run of Adds, Sets, lookups and Flushes, for every name, what the run reported plus
   what the counter objects owe plus the deltas in hand equals what the run wrote, modulo 2^64.
   */
  lemma Conservation(pruneAfter: Uint32, threads: nat, run: seq<Step>, s: State, n: string)
    requires Reaches(ANY, pruneAfter, threads, run, s)
    ensures Conserves(s, n, Handed(n, pruneAfter, threads, run), Given(n, pruneAfter, threads, run))
  {
    ConservedReached(pruneAfter, threads, run, s, n);
    Told(ANY, pruneAfter, threads, run, s, n);
  }
}
