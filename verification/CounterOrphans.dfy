/**
 What every interleaving keeps: the mutex, the shape of the goroutines' positions, and that a
 counter outside the map is marked detached, so that the next write to it rejoins it.
 */
module CounterOrphans {
  import opened Options
  import opened Word64
  import opened CounterProtocol

  predicate GoalOk(s: State, t: nat, c: nat, goal: Goal) {
    c < |s.objs| &&
    match goal
    case Fold(o) => o < |s.objs| && o != c && s.objs[o].name == s.objs[c].name && s.pruneAfter > 0
    case Report => s.lock == Some(t) && s.InMap(c)
    case Relatch => s.lock == Some(t) && s.objs[c].detached && s.pruneAfter > 0
  }

  /** What holds of a goroutine at each position; in particular only the holder of flushMu is inside Flush. */
  predicate PcOk(s: State, t: nat, pc: Pc) {
    match pc
    case Idle => s.lock != Some(t)
    case Looking(_) => s.lock != Some(t)
    case Touched(c) => c < |s.objs|
    case Joining(c) => c < |s.objs| && s.pruneAfter > 0
    case Latching(c, g) => GoalOk(s, t, c, g)
    case Loaded(c, g, _) => GoalOk(s, t, c, g)
    case Ready(c, g, v, l) => GoalOk(s, t, c, g) && v != l
    case Holding(c, g, n, d) => GoalOk(s, t, c, g) && s.objs[c].name == n && (d == 0 ==> g.Fold?)
    case Ranging => s.lock == Some(t)
    case Clearing(c) => s.lock == Some(t) && c < |s.objs| && s.InMap(c)
    case Deleting(c) => s.lock == Some(t) && c < |s.objs| && s.InMap(c) && s.pruneAfter > 0
    case Marking(c) => s.lock == Some(t) && c < |s.objs| && s.pruneAfter > 0
  }

  predicate MapOk(s: State) {
    forall n :: n in s.cmap ==> s.cmap[n] < |s.objs| && s.objs[s.cmap[n]].name == n
  }

  predicate PcsOk(s: State) {
    forall t: nat :: t < |s.pcs| ==> PcOk(s, t, s.pcs[t])
  }

  /** A counter outside the map is detached, or the Flush that deleted it is about to mark it so. */
  predicate Attached(s: State, c: nat)
    requires c < |s.objs|
  {
    s.InMap(c) || (s.pruneAfter > 0 && s.objs[c].detached) || exists t: nat :: t < |s.pcs| && s.pcs[t] == Marking(c)
  }

  predicate NoOrphan(s: State) {
    forall c: nat :: c < |s.objs| ==> Attached(s, c)
  }

  predicate Inv(s: State) {
    MapOk(s) && PcsOk(s) && NoOrphan(s)
  }

  predicate MovesKeys(a: Step) {
    a.Store? || a.Join? || a.Delete?
  }

  /** What a step of goroutine t leaves alone: names, the other goroutines and, outside Flush, presence in the map. */
  predicate Keeps(s: State, r: State, t: nat) {
    && t < |s.pcs| == |r.pcs| && r.pcs == s.pcs[t := r.pcs[t]]
    && r.pruneAfter == s.pruneAfter
    && (r.lock == s.lock || (s.lock == None && r.lock == Some(t)) || (s.lock == Some(t) && r.lock == None))
    && |s.objs| <= |r.objs|
    && forall c: nat :: c < |s.objs| ==>
      && r.objs[c].name == s.objs[c].name
      && (s.lock != Some(t) ==> (s.InMap(c) ==> r.InMap(c)) && (r.objs[c].detached == s.objs[c].detached))
  }

  lemma StepKeepsLoad(s: State, a: Step)
    requires MapOk(s) && Can(s, a) && PcOk(s, a.t, s.pcs[a.t]) && a.LoadLastSent?
    ensures Keeps(s, Do(s, a), a.t)
  {
  }

  lemma StepKeepsCommit(s: State, a: Step)
    requires MapOk(s) && Can(s, a) && PcOk(s, a.t, s.pcs[a.t]) && a.Commit?
    ensures Keeps(s, Do(s, a), a.t)
  {
  }

  lemma StepKeepsLatched(s: State, a: Step)
    requires MapOk(s) && Can(s, a) && PcOk(s, a.t, s.pcs[a.t]) && a.Deliver?
    ensures Keeps(s, Do(s, a), a.t)
  {
  }

  lemma StepKeepsMoved(s: State, a: Step)
    requires MapOk(s) && Can(s, a) && PcOk(s, a.t, s.pcs[a.t]) && MovesKeys(a)
    ensures Keeps(s, Do(s, a), a.t)
  {
  }

  lemma StepKeepsElse(s: State, a: Step)
    requires MapOk(s) && Can(s, a) && PcOk(s, a.t, s.pcs[a.t]) && !(a.LoadLastSent? || a.Commit? || a.Deliver?)
    ensures Keeps(s, Do(s, a), a.t)
  {
    if MovesKeys(a) {
      StepKeepsMoved(s, a);
    }
  }

  lemma StepKeeps(s: State, a: Step)
    requires MapOk(s) && Can(s, a) && PcOk(s, a.t, s.pcs[a.t])
    ensures Keeps(s, Do(s, a), a.t)
  {
    if a.LoadLastSent? {
      StepKeepsLoad(s, a);
    } else if a.Commit? {
      StepKeepsCommit(s, a);
    } else if a.Deliver? {
      StepKeepsLatched(s, a);
    } else {
      StepKeepsElse(s, a);
    }
  }

  lemma OthersKept(s: State, r: State, t: nat, u: nat)
    requires Keeps(s, r, t) && u < |s.pcs| && u != t && PcOk(s, u, s.pcs[u])
    ensures r.pcs[u] == s.pcs[u] && PcOk(r, u, r.pcs[u])
  {
    assert r.pcs[u] == s.pcs[u];
  }

  /** A latch step leaves what its goal relies on as it was. */
  lemma GoalKept(s: State, r: State, t: nat, c: nat, g: Goal)
    requires GoalOk(s, t, c, g)
    requires r.lock == s.lock && r.cmap == s.cmap && r.pruneAfter == s.pruneAfter && |r.objs| == |s.objs|
    requires r.objs[c].name == s.objs[c].name && r.objs[c].detached == s.objs[c].detached
    requires r.objs == s.objs[c := r.objs[c]]
    ensures GoalOk(r, t, c, g)
  {
  }

  lemma OwnPcOkLoad(s: State, a: Step)
    requires MapOk(s) && Can(s, a) && PcOk(s, a.t, s.pcs[a.t]) && a.LoadLastSent?
    ensures PcOk(Do(s, a), a.t, Do(s, a).pcs[a.t])
  {
    GoalKept(s, Do(s, a), a.t, s.pcs[a.t].c, s.pcs[a.t].goal);
  }

  lemma OwnPcOkCommit(s: State, a: Step)
    requires MapOk(s) && Can(s, a) && PcOk(s, a.t, s.pcs[a.t]) && a.Commit?
    ensures PcOk(Do(s, a), a.t, Do(s, a).pcs[a.t])
  {
    GoalKept(s, Do(s, a), a.t, s.pcs[a.t].c, s.pcs[a.t].goal);
  }

  lemma OwnPcOkLatched(s: State, a: Step)
    requires MapOk(s) && Can(s, a) && PcOk(s, a.t, s.pcs[a.t]) && a.Deliver?
    ensures PcOk(Do(s, a), a.t, Do(s, a).pcs[a.t])
  {
  }

  lemma OwnPcOkElse(s: State, a: Step)
    requires MapOk(s) && Can(s, a) && PcOk(s, a.t, s.pcs[a.t]) && !(a.LoadLastSent? || a.Commit? || a.Deliver?)
    ensures PcOk(Do(s, a), a.t, Do(s, a).pcs[a.t])
  {
  }

  lemma OwnPcOk(s: State, a: Step)
    requires MapOk(s) && Can(s, a) && PcOk(s, a.t, s.pcs[a.t])
    ensures PcOk(Do(s, a), a.t, Do(s, a).pcs[a.t])
  {
    if a.LoadLastSent? {
      OwnPcOkLoad(s, a);
    } else if a.Commit? {
      OwnPcOkCommit(s, a);
    } else if a.Deliver? {
      OwnPcOkLatched(s, a);
    } else {
      OwnPcOkElse(s, a);
    }
  }

  lemma MapOkMoved(s: State, a: Step)
    requires MapOk(s) && Can(s, a) && PcOk(s, a.t, s.pcs[a.t]) && MovesKeys(a)
    ensures MapOk(Do(s, a))
  {
  }

  lemma MapOkStep(s: State, a: Step)
    requires MapOk(s) && Can(s, a) && PcOk(s, a.t, s.pcs[a.t])
    ensures MapOk(Do(s, a))
  {
    if MovesKeys(a) {
      MapOkMoved(s, a);
    } else {
      StepKeeps(s, a);
      assert Do(s, a).cmap == s.cmap;
    }
  }

  lemma PcsOkStep(s: State, a: Step)
    requires Inv(s) && Can(s, a)
    ensures PcsOk(Do(s, a))
  {
    assert PcOk(s, a.t, s.pcs[a.t]);
    OwnPcOk(s, a);
    StepKeeps(s, a);
    forall u: nat | u < |s.pcs| && u != a.t
      ensures PcOk(Do(s, a), u, Do(s, a).pcs[u])
    {
      OthersKept(s, Do(s, a), a.t, u);
    }
  }

  /** Only the holder of flushMu deletes a counter or changes a detached flag. */
  lemma AttachedByFlush(s: State, a: Step, c: nat)
    requires MapOk(s) && Can(s, a) && PcOk(s, a.t, s.pcs[a.t]) && c < |s.objs| && Attached(s, c) && s.lock == Some(a.t)
    requires a.Clear? || a.Mark? || a.Delete?
    ensures |s.objs| <= |Do(s, a).objs| && Attached(Do(s, a), c)
  {
    var r := Do(s, a);
    if t: nat :| t < |s.pcs| && s.pcs[t] == Marking(c) {
      assert t != a.t ==> r.pcs[t] == Marking(c);
    }
    if a.Delete? {
      assert r.pcs[a.t] == Marking(s.pcs[a.t].c);
    }
  }

  lemma AttachedStep(s: State, a: Step, c: nat)
    requires MapOk(s) && Can(s, a) && PcOk(s, a.t, s.pcs[a.t]) && c < |s.objs| && Attached(s, c)
    ensures |s.objs| <= |Do(s, a).objs| && Attached(Do(s, a), c)
  {
    var r := Do(s, a);
    StepKeeps(s, a);
    if a.Clear? || a.Mark? || a.Delete? {
      AttachedByFlush(s, a, c);
    } else if t: nat :| t < |s.pcs| && s.pcs[t] == Marking(c) {
      assert r.pcs[t] == Marking(c);
    }
  }

  lemma NoOrphanStep(s: State, a: Step)
    requires Inv(s) && Can(s, a)
    ensures NoOrphan(Do(s, a))
  {
    assert PcOk(s, a.t, s.pcs[a.t]);
    forall c: nat | c < |Do(s, a).objs|
      ensures Attached(Do(s, a), c)
    {
      if c < |s.objs| {
        assert Attached(s, c);
        AttachedStep(s, a, c);
      }
    }
  }

  lemma InvStep(s: State, a: Step)
    requires Inv(s) && Can(s, a)
    ensures Inv(Do(s, a)) && Do(s, a).pruneAfter == s.pruneAfter
  {
    assert PcOk(s, a.t, s.pcs[a.t]);
    StepKeeps(s, a);
    MapOkStep(s, a);
    PcsOkStep(s, a);
    NoOrphanStep(s, a);
  }

  /** The invariant holds after every run, whatever the interleaving. */
  lemma {:induction false} InvReached(rule: (State, Step) -> bool, s: State, run: seq<Step>)
    requires Inv(s) && Exec(rule, s, run).Some?
    ensures Inv(Exec(rule, s, run).value) && Exec(rule, s, run).value.pruneAfter == s.pruneAfter
  {
    if run != [] {
      InvReached(rule, s, run[..|run| - 1]);
      InvStep(Exec(rule, s, run[..|run| - 1]).value, run[|run| - 1]);
    }
  }

  lemma InvInit(pruneAfter: Uint32, threads: nat)
    ensures Inv(Init(pruneAfter, threads))
  {
  }

  /**
   No orphan: in every interleaving, a counter outside the map is marked detached, except while the one
   Flush stands between its Delete and its store of detached; and nothing is deleted without pruning.
   */
  lemma NoOrphanEver(pruneAfter: Uint32, threads: nat, run: seq<Step>, s: State, c: nat)
    requires Reaches(ANY, pruneAfter, threads, run, s) && c < |s.objs|
    ensures
      s.InMap(c) || (pruneAfter > 0 && s.objs[c].detached)
      || (pruneAfter > 0 && s.lock.Some? && s.lock.value < |s.pcs| && s.pcs[s.lock.value] == Marking(c))
  {
    InvInit(pruneAfter, threads);
    InvReached(ANY, Init(pruneAfter, threads), run);
    assert Attached(s, c);
    if t: nat :| t < |s.pcs| && s.pcs[t] == Marking(c) {
      assert PcOk(s, t, s.pcs[t]);
    }
  }

  predicate InFlush(pc: Pc) {
    pc.Ranging? || pc.Clearing? || pc.Deleting? || pc.Marking?
    || ((pc.Latching? || pc.Loaded? || pc.Ready? || pc.Holding?) && !pc.goal.Fold?)
  }

  /** Mutual exclusion: two goroutines are never inside Flush at once. */
  lemma OneFlush(pruneAfter: Uint32, threads: nat, run: seq<Step>, s: State, t: nat, u: nat)
    requires Reaches(ANY, pruneAfter, threads, run, s)
    requires t < |s.pcs| && u < |s.pcs| && InFlush(s.pcs[t]) && InFlush(s.pcs[u])
    ensures t == u
  {
    InvInit(pruneAfter, threads);
    InvReached(ANY, Init(pruneAfter, threads), run);
    assert PcOk(s, t, s.pcs[t]) && PcOk(s, u, s.pcs[u]);
  }

  /** detached is cleared only in a state where the counter is in the map. */
  lemma ClearedInMap(pruneAfter: Uint32, threads: nat, run: seq<Step>, s: State, a: Step, c: nat)
    requires Reaches(ANY, pruneAfter, threads, run, s) && Can(s, a)
    requires c < |s.objs| <= |Do(s, a).objs| && s.objs[c].detached && !Do(s, a).objs[c].detached
    ensures s.InMap(c)
  {
    InvInit(pruneAfter, threads);
    InvReached(ANY, Init(pruneAfter, threads), run);
    assert PcOk(s, a.t, s.pcs[a.t]);
    assert a.Clear?;
  }
}
