/**
 The counters of one statStore as a step machine: any number of goroutines write counters, look
 counters up and call Flush. One step is one atomic operation of the source: an atomic load, store,
 add or compare-and-swap, one sync.Map call, or taking or releasing flushMu. Operations on data that
 only the holder of flushMu touches (idleFlushes) are merged into a neighbouring step.
 */
module CounterProtocol {
  import opened Options
  import opened Word64

  /**
   One counter object. History: `since` is the number of the Flush call that last reported it, `zeros` how many
   visits of Flush in a row have found nothing to report since then.
   */
  datatype Counter = Counter(
    name: string, current: Word, lastSent: Word, idleFlushes: Uint32, detached: bool, since: int, zeros: nat)

  /** Why a goroutine latches: to fold into the owner of the name, or as the first or second latch of Flush. */
  datatype Goal = Fold(owner: nat) | Report | Relatch

  /** Where a goroutine stands between two atomic operations. */
  datatype Pc =
    | Idle
    | Looking(name: string)                                       // newCounter: Load missed, before LoadOrStore
    | Touched(c: nat)                                             // value written, before maybeRejoin's load
    | Joining(c: nat)                                             // rejoin, before LoadOrStore
    | Latching(c: nat, goal: Goal)                                // latch, before loading currentValue
    | Loaded(c: nat, goal: Goal, value: Word)                     // latch, before loading lastSentValue
    | Ready(c: nat, goal: Goal, value: Word, lastSeen: Word)      // latch, before the compare-and-swap
    | Holding(c: nat, goal: Goal, name: string, delta: Word)      // latch returned, delta not yet delivered
    | Ranging                                                     // Flush, between two callbacks of Range
    | Clearing(c: nat)                                            // Flush, before storing detached = 0
    | Deleting(c: nat)                                            // Flush, before Delete
    | Marking(c: nat)                                             // Flush, before storing detached = 1

  /**
   `pruneAfter` is pruneAfterFlushes; `objs` holds every counter object ever published, `cmap` is the
   sync.Map, `pcs` the goroutines and `lock` flushMu. `seen` and `must` are the keys the running Range
   has visited and those it has to visit. History: `epoch` counts Flush calls, `sink` the values handed
   to FlushCounter by name, `written` the values written by callers by name; CounterHistory tells all history
   from the run.
   */
  datatype State = State(
    pruneAfter: Uint32, objs: seq<Counter>, cmap: map<string, nat>, pcs: seq<Pc>, lock: Option<nat>,
    seen: set<string>, must: set<string>, epoch: nat, sink: map<string, int>, written: map<string, int>)
  {
    predicate InMap(c: nat)
      requires c < |objs|
    {
      objs[c].name in cmap && cmap[objs[c].name] == c
    }

    /** Where goroutine t goes when the call it made returns: back to Range inside Flush, else to its caller. */
    function Base(t: nat): Pc {
      if lock == Some(t) then Ranging else Idle
    }

    function With(c: nat, counter: Counter): State
      requires c < |objs|
    {
      this.(objs := objs[c := counter])
    }
  }

  datatype Step =
    | Add(t: nat, c: nat, delta: Word)
    | Set(t: nat, c: nat, value: Word)
    | Miss(t: nat, name: string)
    | Store(t: nat)
    | Check(t: nat)
    | Join(t: nat)
    | LoadCurrent(t: nat)
    | LoadLastSent(t: nat)
    | Commit(t: nat)
    | Deliver(t: nat)
    | Acquire(t: nat)
    | Visit(t: nat, name: string)
    | Clear(t: nat)
    | Delete(t: nat)
    | Mark(t: nat)
    | Release(t: nat)

  function Total(m: map<string, int>, n: string): int {
    if n in m then m[n] else 0
  }

  function Bump(m: map<string, int>, n: string, d: int): map<string, int> {
    m[n := Total(m, n) + d]
  }

  function Init(pruneAfter: Uint32, threads: nat): State {
    State(pruneAfter, [], map[], seq(threads, _ => Idle), None, {}, {}, 0, map[], map[])
  }

  predicate Can(s: State, a: Step) {
    a.t < |s.pcs| &&
    var pc := s.pcs[a.t];
    match a
    case Add(_, c, _) => pc == Idle && c < |s.objs|
    case Set(_, c, _) => pc == Idle && c < |s.objs|
    case Miss(_, n) => pc == Idle && n !in s.cmap
    case Store(_) => pc.Looking?
    case Check(_) => pc.Touched? && pc.c < |s.objs|
    case Join(_) => pc.Joining? && pc.c < |s.objs|
    case LoadCurrent(_) => pc.Latching? && pc.c < |s.objs|
    case LoadLastSent(_) => pc.Loaded? && pc.c < |s.objs|
    case Commit(_) => pc.Ready? && pc.c < |s.objs|
    case Deliver(_) => pc.Holding? && pc.c < |s.objs| && (pc.goal.Fold? ==> pc.goal.owner < |s.objs|)
    case Acquire(_) => pc == Idle && s.lock == None
    case Visit(_, n) => pc == Ranging && n in s.cmap && n !in s.seen
    case Clear(_) => pc.Clearing? && pc.c < |s.objs|
    case Delete(_) => pc.Deleting? && pc.c < |s.objs|
    case Mark(_) => pc.Marking? && pc.c < |s.objs|
    case Release(_) => pc == Ranging && s.must <= s.seen
  }

  /** counter.Add, stats.go:308-311: the atomic add, made by a caller or by a fold. */
  function Raise(s: State, c: nat, delta: Word): State
    requires c < |s.objs|
  {
    s.With(c, s.objs[c].(current := Plus(s.objs[c].current, delta)))
  }

  /** Flush has found nothing to report of the counter. */
  function NotedIdle(pruneAfter: Uint32, o: Counter): Counter {
    o.(zeros := o.zeros + 1, idleFlushes := if pruneAfter == 0 then o.idleFlushes else Next(o.idleFlushes))
  }

  /** FlushCounter, with the reset of idleFlushes that follows it. */
  function Reported(s: State, c: nat, name: string, delta: Word): State
    requires c < |s.objs|
  {
    s.With(c, s.objs[c].(idleFlushes := 0, since := s.epoch, zeros := 0)).(sink := Bump(s.sink, name, delta))
  }

  /** Where goroutine a.t goes. */
  function Goes(s: State, a: Step): Pc
    requires Can(s, a)
  {
    var t := a.t;
    var pc := s.pcs[t];
    match a
    case Add(_, c, _) => Touched(c)
    case Set(_, c, _) => Touched(c)
    case Miss(_, n) => Looking(n)
    case Store(_) => Idle
    case Check(_) => if s.pruneAfter > 0 && s.objs[pc.c].detached then Joining(pc.c) else s.Base(t)
    case Join(_) =>
      var n := s.objs[pc.c].name;
      if n !in s.cmap || s.cmap[n] == pc.c then s.Base(t) else Latching(pc.c, Fold(s.cmap[n]))
    case LoadCurrent(_) => Loaded(pc.c, pc.goal, s.objs[pc.c].current)
    case LoadLastSent(_) =>
      if pc.value != s.objs[pc.c].lastSent then Ready(pc.c, pc.goal, pc.value, s.objs[pc.c].lastSent)
      else if pc.goal.Fold? then Holding(pc.c, pc.goal, s.objs[pc.c].name, 0)
      else if pc.goal == Report && s.pruneAfter > 0 && Next(s.objs[pc.c].idleFlushes) >= s.pruneAfter
      then Deleting(pc.c)
      else Ranging
    case Commit(_) =>
      if s.objs[pc.c].lastSent == pc.lastSeen
      then Holding(pc.c, pc.goal, s.objs[pc.c].name, Minus(pc.value, pc.lastSeen))
      else Latching(pc.c, pc.goal)
    case Deliver(_) =>
      if pc.goal.Fold? then Touched(pc.goal.owner) else if pc.goal == Report then Clearing(pc.c) else Joining(pc.c)
    case Acquire(_) => Ranging
    case Visit(_, n) => Latching(s.cmap[n], Report)
    case Clear(_) => Ranging
    case Delete(_) => Marking(pc.c)
    case Mark(_) => Latching(pc.c, Relatch)
    case Release(_) => Idle
  }

  /** What the step does besides. */
  function Effect(s: State, a: Step): State
    requires Can(s, a)
  {
    var t := a.t;
    var pc := s.pcs[t];
    match a
    case Add(_, c, d) => Raise(s, c, d).(written := Bump(s.written, s.objs[c].name, d))
    case Set(_, c, v) =>
      s.With(c, s.objs[c].(current := v)).(written := Bump(s.written, s.objs[c].name, v - s.objs[c].current))
    case Store(_) =>
      if pc.name in s.cmap then s
      else
        s.(objs := s.objs + [Counter(pc.name, 0, 0, 0, false, s.epoch - 1, 0)], cmap := s.cmap[pc.name := |s.objs|])
    case Join(_) =>
      var n := s.objs[pc.c].name;
      if n !in s.cmap then s.(cmap := s.cmap[n := pc.c]) else s
    case LoadLastSent(_) =>
      if pc.value == s.objs[pc.c].lastSent && pc.goal == Report
      then s.With(pc.c, NotedIdle(s.pruneAfter, s.objs[pc.c])) else s
    case Commit(_) =>
      if s.objs[pc.c].lastSent == pc.lastSeen then s.With(pc.c, s.objs[pc.c].(lastSent := pc.value)) else s
    case Deliver(_) =>
      if pc.goal.Fold? then Raise(s, pc.goal.owner, pc.delta) else Reported(s, pc.c, pc.name, pc.delta)
    case Acquire(_) => s.(lock := Some(t), seen := {}, must := s.cmap.Keys, epoch := s.epoch + 1)
    case Visit(_, n) => s.(seen := s.seen + {n})
    case Clear(_) => s.With(pc.c, s.objs[pc.c].(detached := false))
    case Delete(_) => s.(cmap := s.cmap - {s.objs[pc.c].name})
    case Mark(_) => s.With(pc.c, s.objs[pc.c].(detached := true))
    case Release(_) => s.(lock := None)
    case _ => s
  }

  function Do(s: State, a: Step): State
    requires Can(s, a)
  {
    Effect(s, a).(pcs := s.pcs[a.t := Goes(s, a)])
  }

  /** The state after a run in which every step is enabled and obeys `rule`; None when one is not. */
  function Exec(rule: (State, Step) -> bool, s: State, run: seq<Step>): Option<State> {
    if run == [] then Some(s)
    else
      var before := Exec(rule, s, run[..|run| - 1]);
      var a := run[|run| - 1];
      if before.Some? && Can(before.value, a) && rule(before.value, a) then Some(Do(before.value, a)) else None
  }

  /** A store of `threads` goroutines that prunes after `pruneAfter` flushes can be in state s after the run. */
  predicate Reaches(rule: (State, Step) -> bool, pruneAfter: Uint32, threads: nat, run: seq<Step>, s: State) {
    Exec(rule, Init(pruneAfter, threads), run) == Some(s)
  }

  /** The rule that lets every enabled step happen: all interleavings. */
  const ANY: (State, Step) -> bool := (s, a) => true
}
