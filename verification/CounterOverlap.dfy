/**
 What overlapping latches of one counter do. latch loads currentValue before lastSentValue, so a latch
 that read an old value can commit it over a newer one: the comparison it makes is with the lastSentValue
 of now, not of when it read the value. The run below strands a delta and folds an underflowed one.
 */
module CounterOverlap {
  import opened Options
  import opened Word64
  import opened CounterProtocol
  import opened CounterOrphans
  import opened CounterStranding
  import opened CounterExact

  lemma Then(s: State, run: seq<Step>, m: State, a: Step) returns (longer: seq<Step>, r: State)
    requires Exec(ANY, s, run) == Some(m) && Can(m, a)
    ensures Exec(ANY, s, longer) == Some(r) && r == Do(m, a)
  {
    longer, r := run + [a], Do(m, a);
    assert longer[..|longer| - 1] == run;
  }

  const START: State := Init(1, 3)

  /** Counter 0, which was never reported, before and after it is pruned. */
  function Handle(current: Word, lastSent: Word, idle: Uint32, detached: bool): Counter {
    Counter("n", current, lastSent, idle, detached, -1, idle)
  }

  /** The first Flush, by goroutine 0, which has nothing to report. */
  function Flushing(handle: Counter, cmap: map<string, nat>, pc: Pc): State {
    State(1, [handle], cmap, [pc, Idle, Idle], Some(0), {"n"}, {"n"}, 1, map[], map[])
  }

  /** After that Flush: counter 0 is pruned, counter 1 has its name, goroutines 1 and 2 write counter 0. */
  function Racing(current: Word, lastSent: Word, owner: Word, first: Pc, second: Pc, written: map<string, int>): State {
    State(
      1, [Handle(current, lastSent, 1, true), Counter("n", owner, 0, 0, false, 0, 0)], map["n" := 1],
      [Idle, first, second], None, {"n"}, {"n"}, 1, map[], written)
  }

  /** Goroutine 0 creates counter 0 under "n". */
  lemma Created() returns (run: seq<Step>, s: State)
    ensures Exec(ANY, START, run) == Some(s)
    ensures s == START.(objs := [Handle(0, 0, 0, false)], cmap := map["n" := 0])
  {
    run, s := [], START;
    run, s := Then(START, run, s, Miss(0, "n"));
    run, s := Then(START, run, s, Store(0));
  }

  lemma Begun() returns (run: seq<Step>, s: State)
    ensures Exec(ANY, START, run) == Some(s)
    ensures s == Flushing(Handle(0, 0, 0, false), map["n" := 0], Ranging).(seen := {})
  {
    run, s := Created();
    run, s := Then(START, run, s, Acquire(0));
  }

  lemma Visited() returns (run: seq<Step>, s: State)
    ensures Exec(ANY, START, run) == Some(s)
    ensures s == Flushing(Handle(0, 0, 0, false), map["n" := 0], Latching(0, Report))
  {
    run, s := Begun();
    run, s := Then(START, run, s, Visit(0, "n"));
  }

  lemma Compared() returns (run: seq<Step>, s: State)
    ensures Exec(ANY, START, run) == Some(s)
    ensures s == Flushing(Handle(0, 0, 0, false), map["n" := 0], Loaded(0, Report, 0))
  {
    run, s := Visited();
    run, s := Then(START, run, s, LoadCurrent(0));
  }

  lemma Idled() returns (run: seq<Step>, s: State)
    ensures Exec(ANY, START, run) == Some(s)
    ensures s == Flushing(Handle(0, 0, 1, false), map["n" := 0], Deleting(0))
  {
    run, s := Compared();
    run, s := Then(START, run, s, LoadLastSent(0));
  }

  /** The first Flush finds nothing new and deletes it. */
  lemma Deleted() returns (run: seq<Step>, s: State)
    ensures Exec(ANY, START, run) == Some(s)
    ensures s == Flushing(Handle(0, 0, 1, false), map[], Marking(0))
  {
    run, s := Idled();
    run, s := Then(START, run, s, Delete(0));
  }

  lemma Marked() returns (run: seq<Step>, s: State)
    ensures Exec(ANY, START, run) == Some(s)
    ensures s == Flushing(Handle(0, 0, 1, true), map[], Latching(0, Relatch))
  {
    run, s := Deleted();
    run, s := Then(START, run, s, Mark(0));
  }

  lemma Relatching() returns (run: seq<Step>, s: State)
    ensures Exec(ANY, START, run) == Some(s)
    ensures s == Flushing(Handle(0, 0, 1, true), map[], Loaded(0, Relatch, 0))
  {
    run, s := Marked();
    run, s := Then(START, run, s, LoadCurrent(0));
  }

  /** It latches once more, in vain, and ends. */
  lemma Pruned() returns (run: seq<Step>, s: State)
    ensures Exec(ANY, START, run) == Some(s)
    ensures s == Flushing(Handle(0, 0, 1, true), map[], Idle).(lock := None)
  {
    run, s := Relatching();
    run, s := Then(START, run, s, LoadLastSent(0));
    run, s := Then(START, run, s, Release(0));
  }

  /** A lookup creates counter 1. */
  lemma Replaced() returns (run: seq<Step>, s: State)
    ensures Exec(ANY, START, run) == Some(s)
    ensures s == Racing(0, 0, 0, Idle, Idle, map[])
  {
    run, s := Pruned();
    run, s := Then(START, run, s, Miss(0, "n"));
    run, s := Then(START, run, s, Store(0));
  }

  lemma Added() returns (run: seq<Step>, s: State)
    ensures Exec(ANY, START, run) == Some(s)
    ensures s == Racing(5, 0, 0, Touched(0), Idle, map["n" := 5])
  {
    run, s := Replaced();
    run, s := Then(START, run, s, Add(1, 0, 5));
  }

  lemma Detached() returns (run: seq<Step>, s: State)
    ensures Exec(ANY, START, run) == Some(s)
    ensures s == Racing(5, 0, 0, Joining(0), Idle, map["n" := 5])
  {
    run, s := Added();
    run, s := Then(START, run, s, Check(1));
  }

  /** Goroutine 1 adds 5 to the old handle and has read currentValue. */
  lemma Read() returns (run: seq<Step>, s: State)
    ensures Exec(ANY, START, run) == Some(s)
    ensures s == Racing(5, 0, 0, Loaded(0, Fold(1), 5), Idle, map["n" := 5])
  {
    run, s := Detached();
    run, s := Then(START, run, s, Join(1));
    assert s.pcs == [Idle, Latching(0, Fold(1)), Idle];
    run, s := Then(START, run, s, LoadCurrent(1));
  }

  lemma Raced() returns (run: seq<Step>, s: State)
    ensures Exec(ANY, START, run) == Some(s)
    ensures s == Racing(7, 0, 0, Loaded(0, Fold(1), 5), Touched(0), map["n" := 7])
  {
    run, s := Read();
    run, s := Then(START, run, s, Add(2, 0, 2));
    assert s.written == map["n" := 7];
    assert s.objs == [Handle(7, 0, 1, true), Counter("n", 0, 0, 0, false, 0, 0)];
  }

  /** Goroutine 2 adds 2 through the same handle. */
  lemma Joined() returns (run: seq<Step>, s: State)
    ensures Exec(ANY, START, run) == Some(s)
    ensures s == Racing(7, 0, 0, Loaded(0, Fold(1), 5), Latching(0, Fold(1)), map["n" := 7])
  {
    run, s := Raced();
    run, s := Then(START, run, s, Check(2));
    assert s.pcs == [Idle, Loaded(0, Fold(1), 5), Joining(0)];
    run, s := Then(START, run, s, Join(2));
  }

  lemma Overtaking() returns (run: seq<Step>, s: State)
    ensures Exec(ANY, START, run) == Some(s)
    ensures s == Racing(7, 0, 0, Loaded(0, Fold(1), 5), Loaded(0, Fold(1), 7), map["n" := 7])
  {
    run, s := Joined();
    run, s := Then(START, run, s, LoadCurrent(2));
  }

  /** It completes its latch. */
  lemma Committed() returns (run: seq<Step>, s: State)
    ensures Exec(ANY, START, run) == Some(s)
    ensures s == Racing(7, 7, 0, Loaded(0, Fold(1), 5), Holding(0, Fold(1), "n", 7), map["n" := 7])
  {
    run, s := Overtaking();
    run, s := Then(START, run, s, LoadLastSent(2));
    run, s := Then(START, run, s, Commit(2));
  }

  lemma Folded() returns (run: seq<Step>, s: State)
    ensures Exec(ANY, START, run) == Some(s)
    ensures s == Racing(7, 7, 7, Loaded(0, Fold(1), 5), Touched(1), map["n" := 7])
  {
    run, s := Committed();
    run, s := Then(START, run, s, Deliver(2));
  }

  /** 7 is folded into counter 1. */
  lemma Overtaken() returns (run: seq<Step>, s: State)
    ensures Exec(ANY, START, run) == Some(s)
    ensures s == Racing(7, 7, 7, Loaded(0, Fold(1), 5), Idle, map["n" := 7])
  {
    run, s := Folded();
    run, s := Then(START, run, s, Check(2));
  }

  lemma Misled() returns (run: seq<Step>, s: State)
    ensures Exec(ANY, START, run) == Some(s)
    ensures s == Racing(7, 7, 7, Ready(0, Fold(1), 5, 7), Idle, map["n" := 7])
  {
    run, s := Overtaken();
    run, s := Then(START, run, s, LoadLastSent(1));
  }

  /** Goroutine 1 now reads lastSentValue 7, commits 5 over it and holds 5 - 7. */
  lemma Stale() returns (run: seq<Step>, s: State)
    ensures Exec(ANY, START, run) == Some(s)
    ensures s == Racing(7, 5, 7, Holding(0, Fold(1), "n", 0xFFFF_FFFF_FFFF_FFFE), Idle, map["n" := 7])
  {
    run, s := Misled();
    assert Minus(5, 7) == 0xFFFF_FFFF_FFFF_FFFE;
    run, s := Then(START, run, s, Commit(1));
  }

  /** It folds that into counter 1. */
  lemma Regressed() returns (run: seq<Step>, s: State)
    ensures Exec(ANY, START, run) == Some(s)
    ensures s == Racing(7, 5, 5, Idle, Idle, map["n" := 7])
  {
    run, s := Stale();
    run, s := Then(START, run, s, Deliver(1));
    run, s := Then(START, run, s, Check(1));
  }

  /**
   Without the rule on overlapping latches NothingStranded fails: in this run every goroutine is idle,
   yet counter 0 owes 2 and is outside the map.
   */
  lemma OverlapStrands() returns (run: seq<Step>, s: State)
    ensures Reaches(ANY, 1, 3, run, s)
    ensures AllIdle(s) && |s.objs| == 2 && !s.InMap(0) && Minus(s.objs[0].current, s.objs[0].lastSent) == 2
  {
    run, s := Regressed();
  }

  /** Goroutine 1 is about to fold 2^64 - 2, an underflowed difference, into counter 1. */
  lemma OverlapUnderflows() returns (run: seq<Step>, s: State)
    ensures Reaches(ANY, 1, 3, run, s)
    ensures |s.pcs| == 3 && s.pcs[1] == Holding(0, Fold(1), "n", 0xFFFF_FFFF_FFFF_FFFE) && Total(s.written, "n") == 7
  {
    run, s := Stale();
  }

  /**
   A commit takes exactly what it hands on out of what the counter owes, as natural numbers, if and only
   if the value it read lies between lastSentValue and currentValue.
   */
  lemma CommitGenuine(s: State, t: nat)
    requires Inv(s) && Can(s, Commit(t)) && s.objs[s.pcs[t].c].lastSent == s.pcs[t].lastSeen
    ensures
      var c, r := s.pcs[t].c, Do(s, Commit(t));
      r.pcs[t].Holding? &&
      (Minus(r.objs[c].current, r.objs[c].lastSent) + r.pcs[t].delta == Minus(s.objs[c].current, s.objs[c].lastSent)
       <==> Between(s, t))
  {
    var pc := s.pcs[t];
    if Minus(pc.value, pc.lastSeen) <= Minus(s.objs[pc.c].current, pc.lastSeen) {
      DueTaken(s.objs[pc.c].current, pc.lastSeen, pc.value);
    }
  }
}
