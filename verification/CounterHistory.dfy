/**
 What a run did, told from the run itself: what callers wrote to a name, what FlushCounter was given for it,
 what a counter counted, and how long it has been idle. The history variables of the step machine are proved
 to say the same.
 */
module CounterHistory {
  import opened Options
  import opened Word64
  import opened CounterProtocol
  import opened CounterOrphans

  /** The sum over the steps of the run of what each step, taken in the state it is taken in, contributes. */
  function Tally(f: (State, Step) -> int, pruneAfter: Uint32, threads: nat, run: seq<Step>): int {
    if run == [] then 0
    else
      var before, a := run[..|run| - 1], run[|run| - 1];
      var m := Exec(ANY, Init(pruneAfter, threads), before);
      Tally(f, pruneAfter, threads, before) + if m.Some? then f(m.value, a) else 0
  }

  /** A step of a caller on a counter of name n: the delta of an Add; for a Set, the new value minus the old. */
  function Writes(n: string): (State, Step) -> int {
    (s: State, a: Step) =>
      if (a.Add? || a.Set?) && a.c < |s.objs| && s.objs[a.c].name == n
      then if a.Add? then a.delta else a.value - s.objs[a.c].current
      else 0
  }

  /** A call of FlushCounter for name n, with the delta latched. */
  function Reports(n: string): (State, Step) -> int {
    (s: State, a: Step) =>
      if a.Deliver? && Can(s, a) && !s.pcs[a.t].goal.Fold? && s.objs[s.pcs[a.t].c].name == n then s.pcs[a.t].delta
      else 0
  }

  /** Goroutine a.t adds what it latched of another counter to counter c. */
  predicate Folds(s: State, a: Step, c: nat) {
    a.Deliver? && Can(s, a) && s.pcs[a.t].goal == Fold(c)
  }

  /** All that the run wrote to name n. */
  function Given(n: string, pruneAfter: Uint32, threads: nat, run: seq<Step>): int {
    Tally(Writes(n), pruneAfter, threads, run)
  }

  /** All that the run reported for name n. */
  function Handed(n: string, pruneAfter: Uint32, threads: nat, run: seq<Step>): int {
    Tally(Reports(n), pruneAfter, threads, run)
  }

  /** What the run makes of the value of counter c: Adds and folds add to it, wrapping, and a Set replaces it. */
  function Value(c: nat, pruneAfter: Uint32, threads: nat, run: seq<Step>): Word {
    if run == [] then 0
    else
      var before, a := run[..|run| - 1], run[|run| - 1];
      var m, was := Exec(ANY, Init(pruneAfter, threads), before), Value(c, pruneAfter, threads, before);
      if a.Add? && a.c == c then Plus(was, a.delta)
      else if a.Set? && a.c == c then a.value
      else if m.Some? && Folds(m.value, a, c) then Plus(was, m.value.pcs[a.t].delta)
      else was
  }

  /** Every rule allows only runs of ANY. */
  lemma {:induction false} RunOfAny(rule: (State, Step) -> bool, s: State, run: seq<Step>)
    requires Exec(rule, s, run).Some?
    ensures Exec(ANY, s, run) == Exec(rule, s, run)
  {
    if run != [] {
      RunOfAny(rule, s, run[..|run| - 1]);
    }
  }

  lemma {:induction false} ExecConcat(rule: (State, Step) -> bool, s: State, first: seq<Step>, more: seq<Step>)
    requires Exec(rule, s, first).Some?
    ensures Exec(rule, s, first + more) == Exec(rule, Exec(rule, s, first).value, more)
  {
    if more == [] {
      assert first + more == first;
    } else {
      ExecConcat(rule, s, first, more[..|more| - 1]);
      assert (first + more)[..|first + more| - 1] == first + more[..|more| - 1];
    }
  }

  lemma WrittenStep(s: State, a: Step, n: string)
    requires Can(s, a)
    ensures Total(Do(s, a).written, n) == Total(s.written, n) + Writes(n)(s, a)
  {
  }

  lemma ReportedStep(s: State, a: Step, n: string)
    requires Inv(s) && Can(s, a)
    ensures Total(Do(s, a).sink, n) == Total(s.sink, n) + Reports(n)(s, a)
  {
    assert PcOk(s, a.t, s.pcs[a.t]);
  }

  /** `written` is what the run wrote and `sink` what it reported. */
  lemma {:induction false} Told(
      rule: (State, Step) -> bool, pruneAfter: Uint32, threads: nat, run: seq<Step>, s: State, n: string)
    requires Reaches(rule, pruneAfter, threads, run, s)
    ensures Total(s.written, n) == Given(n, pruneAfter, threads, run)
    ensures Total(s.sink, n) == Handed(n, pruneAfter, threads, run)
  {
    var i := Init(pruneAfter, threads);
    if run != [] {
      var before, a := run[..|run| - 1], run[|run| - 1];
      var m := Exec(rule, i, before).value;
      RunOfAny(rule, i, before);
      InvInit(pruneAfter, threads);
      InvReached(rule, i, before);
      Told(rule, pruneAfter, threads, before, m, n);
      WrittenStep(m, a, n);
      ReportedStep(m, a, n);
    }
  }

  lemma CurrentStep(s: State, a: Step, c: nat)
    requires Inv(s) && Can(s, a) && c < |s.objs|
    ensures |s.objs| <= |Do(s, a).objs|
    ensures
      Do(s, a).objs[c].current ==
        if a.Add? && a.c == c then Plus(s.objs[c].current, a.delta)
        else if a.Set? && a.c == c then a.value
        else if Folds(s, a, c) then Plus(s.objs[c].current, s.pcs[a.t].delta)
        else s.objs[c].current
  {
    assert PcOk(s, a.t, s.pcs[a.t]);
  }

  lemma Uncounted(s: State, a: Step, c: nat)
    requires Inv(s) && Can(s, a) && c >= |s.objs|
    ensures !((a.Add? || a.Set?) && a.c == c) && !Folds(s, a, c)
    ensures c < |Do(s, a).objs| ==> Do(s, a).objs[c].current == 0
  {
    assert PcOk(s, a.t, s.pcs[a.t]);
  }

  lemma {:induction false} ValueReached(pruneAfter: Uint32, threads: nat, run: seq<Step>, s: State, c: nat)
    requires Reaches(ANY, pruneAfter, threads, run, s)
    ensures Value(c, pruneAfter, threads, run) == if c < |s.objs| then s.objs[c].current else 0
  {
    var i := Init(pruneAfter, threads);
    if run != [] {
      var before, a := run[..|run| - 1], run[|run| - 1];
      var m := Exec(ANY, i, before).value;
      InvInit(pruneAfter, threads);
      InvReached(ANY, i, before);
      ValueReached(pruneAfter, threads, before, m, c);
      if c < |m.objs| {
        CurrentStep(m, a, c);
      } else {
        Uncounted(m, a, c);
      }
    }
  }

  /**
   In every interleaving the value of a counter, attached or not, is what its last Set gave it and all that
   callers and folds have added since, wrapping at 2^64.
   */
  lemma CurrentIsCounted(pruneAfter: Uint32, threads: nat, run: seq<Step>, s: State, c: nat)
    requires Reaches(ANY, pruneAfter, threads, run, s) && c < |s.objs|
    ensures s.objs[c].current == Value(c, pruneAfter, threads, run)
  {
    ValueReached(pruneAfter, threads, run, s, c);
  }

  /** Add and Set do to the counter, attached or not, what they say, and nothing to any other. */
  lemma WriteCounts(s: State, a: Step)
    requires Can(s, a) && (a.Add? || a.Set?)
    ensures
      var r := Do(s, a);
      && |r.objs| == |s.objs| && r.cmap == s.cmap && r.sink == s.sink
      && r.objs[a.c].current == (if a.Add? then (s.objs[a.c].current + a.delta) % MODULUS else a.value)
      && r.objs[a.c].lastSent == s.objs[a.c].lastSent
      && forall c: nat :: c < |s.objs| && c != a.c ==> r.objs[c] == s.objs[c]
  {
    if a.Add? {
      Wraps(s.objs[a.c].current, a.delta);
    }
  }

  /** A lookup ends with a counter of the name in the map: one found there, or a new one that has counted nothing. */
  lemma LookupPublishes(s: State, t: nat, n: string)
    requires Inv(s) && Can(s, Store(t)) && s.pcs[t] == Looking(n)
    ensures
      var r := Do(s, Store(t));
      && n in r.cmap && s.objs <= r.objs && r.cmap == s.cmap[n := r.cmap[n]]
      && r.cmap[n] < |r.objs| && r.objs[r.cmap[n]].name == n
      && if n in s.cmap then r.cmap == s.cmap && r.objs == s.objs
         else
           var o := r.objs[r.cmap[n]];
           r.cmap[n] == |s.objs| && o.current == o.lastSent == o.idleFlushes == 0 && !o.detached
  {
  }

  /** Goroutine a.t has latched counter c for Flush and found nothing to report. */
  predicate Finds(s: State, a: Step, c: nat) {
    a.LoadLastSent? && Can(s, a)
    && s.pcs[a.t].goal == Report && s.pcs[a.t].c == c && s.pcs[a.t].value == s.objs[c].lastSent
  }

  predicate ReportsOf(s: State, a: Step, c: nat) {
    a.Deliver? && Can(s, a) && s.pcs[a.t].c == c && !s.pcs[a.t].goal.Fold?
  }

  /** How many visits of Flush in a row have found nothing to report of counter c since it was last reported. */
  function IdleVisits(c: nat, pruneAfter: Uint32, threads: nat, run: seq<Step>): nat {
    if run == [] then 0
    else
      var before, a := run[..|run| - 1], run[|run| - 1];
      var m, was := Exec(ANY, Init(pruneAfter, threads), before), IdleVisits(c, pruneAfter, threads, before);
      if m.None? then was
      else if Finds(m.value, a, c) then was + 1
      else if ReportsOf(m.value, a, c) then 0
      else was
  }

  /** How many Flush calls have begun since counter c was last reported or made, with one under way when it was made. */
  function FlushCalls(c: nat, pruneAfter: Uint32, threads: nat, run: seq<Step>): nat {
    if run == [] then 0
    else
      var before, a := run[..|run| - 1], run[|run| - 1];
      var m, was := Exec(ANY, Init(pruneAfter, threads), before), FlushCalls(c, pruneAfter, threads, before);
      if m.None? then was
      else if a.Acquire? then was + 1
      else if a.Store? && |m.value.objs| == c then 1
      else if ReportsOf(m.value, a, c) then 0
      else was
  }

  lemma IdleStep(s: State, a: Step, c: nat)
    requires Inv(s) && Can(s, a) && c < |s.objs|
    ensures
      var r := Do(s, a);
      && c < |r.objs|
      && r.objs[c].zeros ==
           (if Finds(s, a, c) then s.objs[c].zeros + 1 else if ReportsOf(s, a, c) then 0 else s.objs[c].zeros)
      && r.epoch - r.objs[c].since ==
           (if a.Acquire? then s.epoch - s.objs[c].since + 1
            else if ReportsOf(s, a, c) then 0 else s.epoch - s.objs[c].since)
  {
    assert PcOk(s, a.t, s.pcs[a.t]);
  }

  lemma NewIsIdle(s: State, a: Step, c: nat)
    requires Inv(s) && Can(s, a) && c >= |s.objs|
    ensures !Finds(s, a, c) && !ReportsOf(s, a, c)
    ensures
      var r := Do(s, a);
      c < |r.objs| ==> a.Store? && c == |s.objs| && r.objs[c].zeros == 0 && r.epoch - r.objs[c].since == 1
  {
    assert PcOk(s, a.t, s.pcs[a.t]);
  }

  /** `zeros`, `since` and `epoch` say how long a counter has been idle. */
  lemma {:induction false} IdleTold(pruneAfter: Uint32, threads: nat, run: seq<Step>, s: State, c: nat)
    requires Reaches(ANY, pruneAfter, threads, run, s)
    ensures c >= |s.objs| ==> IdleVisits(c, pruneAfter, threads, run) == 0
    ensures
      c < |s.objs| ==>
        && s.objs[c].zeros == IdleVisits(c, pruneAfter, threads, run)
        && s.epoch - s.objs[c].since == FlushCalls(c, pruneAfter, threads, run)
  {
    var i := Init(pruneAfter, threads);
    if run != [] {
      var before, a := run[..|run| - 1], run[|run| - 1];
      var m := Exec(ANY, i, before).value;
      InvInit(pruneAfter, threads);
      InvReached(ANY, i, before);
      IdleTold(pruneAfter, threads, before, m, c);
      assert PcOk(m, a.t, m.pcs[a.t]);
      StepKeeps(m, a);
      if c < |m.objs| {
        IdleStep(m, a, c);
      } else {
        NewIsIdle(m, a, c);
      }
    }
  }
}
