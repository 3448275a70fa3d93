/**
 What a visit of Flush comes to, in every interleaving: each visit ends with one report or with one count of an
 idle flush, and a counter that a Flush call has reported keeps its name in the map until the next call.
 */
module CounterVisits {
  import opened Options
  import opened Word64
  import opened CounterProtocol
  import opened CounterOrphans
  import opened CounterHistory
  import opened CounterIdle

  /** Flush visits counter c. */
  function VisitsOf(c: nat): (State, Step) -> int {
    (s: State, a: Step) => if a.Visit? && a.name in s.cmap && s.cmap[a.name] == c then 1 else 0
  }

  /** The visit of counter c hands its delta to FlushCounter, or finds none. */
  function AnswersOf(c: nat): (State, Step) -> int {
    (s: State, a: Step) =>
      if Finds(s, a, c) || (ReportsOf(s, a, c) && s.pcs[a.t].goal == Report) then 1 else 0
  }

  /** Where the goroutine inside Flush stands; Idle when there is none. */
  function Holder(s: State): Pc {
    if s.lock.Some? && s.lock.value < |s.pcs| then s.pcs[s.lock.value] else Idle
  }

  /** Flush latches counter c for its visit, or holds what it latched. */
  predicate Visiting(pc: Pc, c: nat) {
    (pc.Latching? || pc.Loaded? || pc.Ready? || pc.Holding?) && pc.goal == Report && pc.c == c
  }

  function Bit(b: bool): int {
    if b then 1 else 0
  }

  /** What a goroutine outside Flush leaves alone. */
  lemma OutsideFlush(s: State, a: Step)
    requires Inv(s) && Can(s, a) && s.lock != Some(a.t) && !a.Acquire?
    ensures
      var r := Do(s, a);
      && r.lock == s.lock && r.seen == s.seen && r.epoch == s.epoch && |s.objs| <= |r.objs|
      && s.cmap.Keys <= r.cmap.Keys && Holder(r) == Holder(s)
      && forall c: nat :: c < |s.objs| ==> r.objs[c].name == s.objs[c].name && r.objs[c].since == s.objs[c].since
  {
    assert PcOk(s, a.t, s.pcs[a.t]);
    StepKeeps(s, a);
    WritersKeepIdle(s, a);
    forall n | n in s.cmap
      ensures n in Do(s, a).cmap
    {
      assert s.InMap(s.cmap[n]);
    }
  }

  lemma OwnVisit(s: State, a: Step, c: nat)
    requires Inv(s) && Can(s, a) && a.t < |Do(s, a).pcs|
    ensures
      VisitsOf(c)(s, a) + Bit(Visiting(s.pcs[a.t], c)) == AnswersOf(c)(s, a) + Bit(Visiting(Do(s, a).pcs[a.t], c))
  {
    assert PcOk(s, a.t, s.pcs[a.t]);
  }

  lemma VisitStep(s: State, a: Step, c: nat)
    requires Inv(s) && Can(s, a)
    ensures VisitsOf(c)(s, a) + Bit(Visiting(Holder(s), c)) == AnswersOf(c)(s, a) + Bit(Visiting(Holder(Do(s, a)), c))
  {
    assert PcOk(s, a.t, s.pcs[a.t]);
    StepKeeps(s, a);
    OwnVisit(s, a, c);
    if s.lock != Some(a.t) && !a.Acquire? {
      OutsideFlush(s, a);
    }
  }

  /**
   In every interleaving each visit of a counter, however often its compare-and-swap fails, ends with exactly one
   report or one count of an idle flush, and only the visit under way has had neither.
   */
  lemma {:induction false} VisitsAnswered(pruneAfter: Uint32, threads: nat, run: seq<Step>, s: State, c: nat)
    requires Reaches(ANY, pruneAfter, threads, run, s)
    ensures
      Tally(VisitsOf(c), pruneAfter, threads, run)
        == Tally(AnswersOf(c), pruneAfter, threads, run) + Bit(Visiting(Holder(s), c))
  {
    var i := Init(pruneAfter, threads);
    if run != [] {
      var before, a := run[..|run| - 1], run[|run| - 1];
      var m := Exec(ANY, i, before).value;
      InvInit(pruneAfter, threads);
      InvReached(ANY, i, before);
      VisitsAnswered(pruneAfter, threads, before, m, c);
      VisitStep(m, a, c);
    }
  }

  /** Flush has counter pc.c in hand and may yet find it out of the map. */
  predicate InHand(pc: Pc) {
    || ((pc.Latching? || pc.Loaded? || pc.Ready? || pc.Holding?) && !pc.goal.Fold?)
    || pc.Deleting? || pc.Marking?
  }

  /** What Flush has in hand it has visited. */
  predicate HandSeen(s: State) {
    var pc := Holder(s);
    InHand(pc) ==> pc.c < |s.objs| && s.objs[pc.c].name in s.seen
  }

  /**
   A counter that the latest Flush call reported was visited and is in the map, or about to rejoin it; Flush has no
   other counter of its name in hand.
   */
  predicate Kept(s: State, c: nat)
    requires c < |s.objs|
  {
    var n, pc := s.objs[c].name, Holder(s);
    && s.objs[c].since <= s.epoch
    && (s.objs[c].since == s.epoch ==>
      && (s.lock.Some? ==> n in s.seen)
      && (n in s.cmap || pc == Joining(c))
      && (InHand(pc) && pc.c < |s.objs| ==> s.objs[pc.c].name != n))
  }

  predicate KeptInv(s: State) {
    HandSeen(s) && forall c: nat :: c < |s.objs| ==> Kept(s, c)
  }

  lemma HandSeenOwn(s: State, a: Step)
    requires Inv(s) && HandSeen(s) && Can(s, a) && s.lock == Some(a.t)
    ensures HandSeen(Do(s, a))
  {
    assert PcOk(s, a.t, s.pcs[a.t]);
  }

  lemma HandSeenStep(s: State, a: Step)
    requires Inv(s) && HandSeen(s) && Can(s, a)
    ensures HandSeen(Do(s, a))
  {
    if s.lock == Some(a.t) {
      HandSeenOwn(s, a);
    } else if !a.Acquire? {
      OutsideFlush(s, a);
    }
  }

  lemma KeptOther(s: State, a: Step, c: nat)
    requires Inv(s) && KeptInv(s) && Can(s, a) && c < |s.objs| && s.lock != Some(a.t)
    ensures |s.objs| <= |Do(s, a).objs| && Kept(Do(s, a), c)
  {
    assert Kept(s, c);
    if !a.Acquire? {
      OutsideFlush(s, a);
    }
  }

  lemma KeptDeliver(s: State, a: Step, c: nat)
    requires Inv(s) && KeptInv(s) && Can(s, a) && c < |s.objs| && s.lock == Some(a.t) && a.Deliver?
    ensures |s.objs| <= |Do(s, a).objs| && Kept(Do(s, a), c)
  {
    assert PcOk(s, a.t, s.pcs[a.t]) && Kept(s, c);
  }

  lemma KeptMoved(s: State, a: Step, c: nat)
    requires Inv(s) && KeptInv(s) && Can(s, a) && c < |s.objs| && s.lock == Some(a.t) && MovesKeys(a)
    ensures |s.objs| <= |Do(s, a).objs| && Kept(Do(s, a), c)
  {
    assert PcOk(s, a.t, s.pcs[a.t]) && Kept(s, c);
  }

  lemma KeptLatch(s: State, a: Step, c: nat)
    requires Inv(s) && KeptInv(s) && Can(s, a) && c < |s.objs| && s.lock == Some(a.t)
    requires a.LoadCurrent? || a.LoadLastSent? || a.Commit?
    ensures |s.objs| <= |Do(s, a).objs| && Kept(Do(s, a), c)
  {
    assert PcOk(s, a.t, s.pcs[a.t]) && Kept(s, c);
  }

  lemma KeptElse(s: State, a: Step, c: nat)
    requires Inv(s) && KeptInv(s) && Can(s, a) && c < |s.objs| && s.lock == Some(a.t)
    requires !(a.LoadCurrent? || a.LoadLastSent? || a.Commit? || a.Deliver? || MovesKeys(a))
    ensures |s.objs| <= |Do(s, a).objs| && Kept(Do(s, a), c)
  {
    assert PcOk(s, a.t, s.pcs[a.t]) && Kept(s, c);
  }

  lemma KeptStep(s: State, a: Step)
    requires Inv(s) && KeptInv(s) && Can(s, a)
    ensures KeptInv(Do(s, a))
  {
    assert PcOk(s, a.t, s.pcs[a.t]);
    HandSeenStep(s, a);
    forall c: nat | c < |Do(s, a).objs|
      ensures Kept(Do(s, a), c)
    {
      if c >= |s.objs| {
        NewIsIdle(s, a, c);
      } else if s.lock != Some(a.t) {
        KeptOther(s, a, c);
      } else if a.Deliver? {
        KeptDeliver(s, a, c);
      } else if MovesKeys(a) {
        KeptMoved(s, a, c);
      } else if a.LoadCurrent? || a.LoadLastSent? || a.Commit? {
        KeptLatch(s, a, c);
      } else {
        KeptElse(s, a, c);
      }
    }
  }

  lemma {:induction false} KeptReached(pruneAfter: Uint32, threads: nat, run: seq<Step>)
    requires Exec(ANY, Init(pruneAfter, threads), run).Some?
    ensures KeptInv(Exec(ANY, Init(pruneAfter, threads), run).value)
  {
    var i := Init(pruneAfter, threads);
    if run != [] {
      KeptReached(pruneAfter, threads, run[..|run| - 1]);
      InvInit(pruneAfter, threads);
      InvReached(ANY, i, run[..|run| - 1]);
      KeptStep(Exec(ANY, i, run[..|run| - 1]).value, run[|run| - 1]);
    }
  }

  /**
   In every interleaving, until another Flush call begins, the name of a counter that was reported is in the map,
   the name of one reported after its deletion once its rejoin is done.
   */
  lemma ReportedStays(pruneAfter: Uint32, threads: nat, run: seq<Step>, s: State, c: nat)
    requires Reaches(ANY, pruneAfter, threads, run, s) && c < |s.objs|
    requires FlushCalls(c, pruneAfter, threads, run) == 0
    ensures s.objs[c].name in s.cmap || Holder(s) == Joining(c)
  {
    IdleTold(pruneAfter, threads, run, s, c);
    KeptReached(pruneAfter, threads, run);
    assert Kept(s, c);
  }
}
