/**
 What every run of the sink keeps about buffers, requests and the retry slot: a buffer has at most one
 owner, every request is at exactly one place, and the consumer always has a step to take.
 */
module SinkOwnership {
  import opened Options
  import opened SinkProtocol

  function Count(b: bool): nat {
    if b then 1 else 0
  }

  /** How often x occurs in q. */
  function Times(q: seq<nat>, x: nat): nat {
    if q == [] then 0 else Times(q[..|q| - 1], x) + Count(q[|q| - 1] == x)
  }

  lemma TimesLast(q: seq<nat>, y: nat, x: nat)
    ensures Times(q + [y], x) == Times(q, x) + Count(y == x)
  {
    assert (q + [y])[..|q|] == q;
  }

  lemma {:induction false} TimesFirst(q: seq<nat>, x: nat)
    requires q != []
    ensures Times(q, x) == Times(q[1..], x) + Count(q[0] == x)
  {
    if |q| > 1 {
      TimesFirst(q[..|q| - 1], x);
      assert q[1..][..|q| - 2] == q[..|q| - 1][1..];
    }
  }

  lemma {:induction false} TimesIn(q: seq<nat>, x: nat)
    ensures Times(q, x) > 0 <==> x in q
  {
    if q != [] {
      TimesIn(q[..|q| - 1], x);
      assert q == q[..|q| - 1] + [q[|q| - 1]];
    }
  }

  lemma {:induction false} TimesTwice(q: seq<nat>, i: nat, j: nat)
    requires i < j < |q| && q[i] == q[j]
    ensures Times(q, q[i]) >= 2
  {
    if j == |q| - 1 {
      TimesIn(q[..j], q[i]);
      assert q[..j][i] == q[i];
    } else {
      TimesTwice(q[..|q| - 1], i, j);
    }
  }

  predicate Holds(pc: Pc, b: nat) {
    (pc.Writing? || pc.Pushing?) && pc.b == b
  }

  /** How many owners buffer b has: the pool, the channels, a producer and the consumer. */
  function Owners(s: State, b: nat): nat {
    s.pool[b] + Times(s.outc, b) + Times(s.retryc, b) + Count(s.making == Some(b)) + Count(Holds(s.pc, b))
  }

  predicate Serves(pc: Pc, d: nat) {
    ((pc.Requested? || pc.Flushing?) && pc.d == d)
    || ((pc.Writing? || pc.Pushing?) && pc.from.InFlush? && pc.from.d == d)
  }

  /** How often request d occurs: waiting in doFlush, being served, or closed. */
  function Places(s: State, d: nat): nat {
    Times(s.doFlush, d) + Times(s.closed, d) + Count(Serves(s.pc, d))
  }

  ghost predicate Owned(s: State) {
    forall b: nat :: Owners(s, b) <= Count(b < |s.bufs|)
  }

  ghost predicate Asked(s: State) {
    forall d: nat :: Places(s, d) == Count(d < |s.marks|)
  }

  /** In the flush loop with the connection up, the chunks counted are still there. */
  predicate Loop(s: State) {
    match s.pc
    case Top => |s.retryc| <= 1
    case Draining(_) => |s.retryc| <= 1 && !s.conn
    case Select => s.retryc == [] && s.conn
    case Requested(_) => s.retryc == [] && s.conn
    case Flushing(i, n, _) => |s.retryc| <= 1 && (s.conn ==> s.retryc == [] && i <= n && |s.outc| >= n - i)
    case Writing(b, from) =>
      s.retryc == [] && s.conn && (from.InFlush? ==> from.i < from.n && |s.outc| >= from.n - from.i - 1)
    case Pushing(b, from) => s.retryc == [] && !s.conn && from != Retry
  }

  lemma OwnersReceived(s: State, a: Step, b: nat)
    requires Owned(s) && Can(s, a) && (a.TakeRetry? || a.TakeOut? || a.FlushNext?) && Loop(s)
    ensures Owners(Do(s, a), b) == Owners(s, b)
  {
    TimesFirst(if a.TakeRetry? then s.retryc else s.outc, b);
  }

  lemma OwnersFilled(s: State, a: Step, b: nat)
    requires Can(s, a) && Owners(s, b) <= Count(b < |s.bufs|) && (a.Fill? || a.Forget?)
    ensures Owners(Do(s, a), b) <= Count(b < |Do(s, a).bufs|)
  {
  }

  lemma OwnersSent(s: State, b: nat)
    requires Can(s, Send)
    ensures Owners(Do(s, Send), b) <= Owners(s, b) && Do(s, Send).bufs == s.bufs
  {
    TimesLast(s.outc, s.making.value, b);
  }

  lemma OwnersPushed(s: State, b: nat)
    requires Can(s, Push)
    ensures Owners(Do(s, Push), b) == Owners(s, b) && Do(s, Push).bufs == s.bufs
  {
    TimesLast(s.retryc, s.pc.b, b);
  }

  lemma OwnersWritten(s: State, a: Step, b: nat)
    requires Can(s, a) && a.Write?
    ensures Owners(Do(s, a), b) == Owners(s, b) && |Do(s, a).bufs| == |s.bufs|
  {
  }

  /** The other steps move no buffer. */
  predicate Moves(a: Step) {
    a.Fill? || a.Forget? || a.Send? || a.Push? || a.Write? || a.TakeRetry? || a.TakeOut? || a.FlushNext?
  }

  lemma OwnersElse(s: State, a: Step, b: nat)
    requires Can(s, a) && !Moves(a)
    ensures Owners(Do(s, a), b) == Owners(s, b) && Do(s, a).bufs == s.bufs
  {
  }

  lemma OwnedStep(s: State, a: Step)
    requires Can(s, a) && Owned(s) && Loop(s)
    ensures Owned(Do(s, a))
  {
    forall b: nat
      ensures Owners(Do(s, a), b) <= Count(b < |Do(s, a).bufs|)
    {
      if a.TakeRetry? || a.TakeOut? || a.FlushNext? {
        OwnersReceived(s, a, b);
      } else if a.Fill? || a.Forget? {
        OwnersFilled(s, a, b);
      } else if a.Send? {
        OwnersSent(s, b);
      } else if a.Push? {
        OwnersPushed(s, b);
      } else if a.Write? {
        OwnersWritten(s, a, b);
      } else {
        OwnersElse(s, a, b);
      }
    }
  }

  lemma PlacesDrained(s: State, d: nat)
    requires s.pc.Draining?
    ensures Places(Do(s, Drain), d) == Places(s, d)
  {
    if s.pc.i < DRAINED && s.doFlush != [] {
      var r := Do(s, Drain);
      TimesFirst(s.doFlush, d);
      TimesLast(s.closed, s.doFlush[0], d);
      assert r.doFlush == s.doFlush[1..] && r.closed == s.closed + [s.doFlush[0]];
      assert !Serves(r.pc, d) && !Serves(s.pc, d);
    }
  }

  lemma PlacesMoved(s: State, a: Step, d: nat)
    requires Can(s, a) && (a.TakeFlush? || a.FlushDone?)
    ensures Places(Do(s, a), d) == Places(s, d)
  {
    if a.TakeFlush? {
      TimesFirst(s.doFlush, d);
    } else {
      TimesLast(s.closed, s.pc.d, d);
    }
  }

  lemma PlacesElse(s: State, a: Step, d: nat)
    requires Can(s, a) && !(a.Ask? || a.Drain? || a.TakeFlush? || a.FlushDone?)
    ensures Places(Do(s, a), d) == Places(s, d) && Do(s, a).marks == s.marks
  {
  }

  lemma PlacesStep(s: State, a: Step, d: nat)
    requires Can(s, a) && Places(s, d) == Count(d < |s.marks|)
    ensures Places(Do(s, a), d) == Count(d < |Do(s, a).marks|)
  {
    if a.Ask? {
      TimesLast(s.doFlush, |s.marks|, d);
    } else if a.Drain? {
      PlacesDrained(s, d);
    } else if a.TakeFlush? || a.FlushDone? {
      PlacesMoved(s, a, d);
    } else {
      PlacesElse(s, a, d);
    }
  }

  lemma AskedStep(s: State, a: Step)
    requires Can(s, a) && Asked(s)
    ensures Asked(Do(s, a))
  {
    forall d: nat
      ensures Places(Do(s, a), d) == Count(d < |Do(s, a).marks|)
    {
      PlacesStep(s, a, d);
    }
  }

  lemma LoopWritten(s: State, n: nat, ok: bool)
    requires Can(s, Write(n, ok)) && Loop(s)
    ensures Loop(Do(s, Write(n, ok)))
  {
  }

  lemma LoopReceived(s: State, a: Step)
    requires Can(s, a) && Loop(s) && (a.TakeOut? || a.FlushNext?)
    ensures Loop(Do(s, a))
  {
  }

  lemma LoopStep(s: State, a: Step)
    requires Can(s, a) && Loop(s)
    ensures Loop(Do(s, a))
  {
    if a.Write? {
      LoopWritten(s, a.n, a.ok);
    } else if a.TakeOut? || a.FlushNext? {
      LoopReceived(s, a);
    }
  }

  lemma {:induction false} Reached(capacity: nat, run: seq<Step>, s: State)
    requires Reaches(capacity, run, s)
    ensures Owned(s) && Asked(s) && Loop(s)
  {
    if run != [] {
      var before := run[..|run| - 1];
      Reached(capacity, before, Exec(capacity, before).value);
      OwnedStep(Exec(capacity, before).value, run[|run| - 1]);
      AskedStep(Exec(capacity, before).value, run[|run| - 1]);
      LoopStep(Exec(capacity, before).value, run[|run| - 1]);
    }
  }

  /** A pooled buffer is pooled once and is in no channel and no hand; nor is any other buffer in two places. */
  lemma NoSharing(capacity: nat, run: seq<Step>, s: State, b: nat)
    requires Reaches(capacity, run, s)
    ensures s.pool[b] <= 1
    ensures b in s.pool ==> b !in s.outc && b !in s.retryc && s.making != Some(b) && !Holds(s.pc, b)
    ensures s.making == Some(b) || Holds(s.pc, b) ==> b !in s.outc && b !in s.retryc
    ensures !(s.making == Some(b) && Holds(s.pc, b))
    ensures b in s.retryc ==> b !in s.outc && Times(s.retryc, b) == 1
    ensures forall i, j :: 0 <= i < j < |s.outc| ==> s.outc[i] != s.outc[j]
  {
    Reached(capacity, run, s);
    assert Owners(s, b) <= 1;
    TimesIn(s.outc, b);
    TimesIn(s.retryc, b);
    forall i, j | 0 <= i < j < |s.outc| && s.outc[i] == s.outc[j]
      ensures false
    {
      assert Owners(s, s.outc[i]) <= 1;
      TimesTwice(s.outc, i, j);
    }
  }

  /** Every request is waiting, being served or closed, and never two of these; none is closed twice. */
  lemma ClosedOnce(capacity: nat, run: seq<Step>, s: State, d: nat)
    requires Reaches(capacity, run, s)
    ensures d < |s.marks| <==> d in s.doFlush || d in s.closed || Serves(s.pc, d)
    ensures Times(s.closed, d) <= 1
    ensures d in s.closed ==> d !in s.doFlush && !Serves(s.pc, d)
  {
    Reached(capacity, run, s);
    assert Places(s, d) == Count(d < |s.marks|);
    TimesIn(s.doFlush, d);
    TimesIn(s.closed, d);
  }

  /** The steps that run takes; the others are those of producers, callers of Flush and the pool. */
  predicate OfRun(a: Step) {
    !(a.Fill? || a.Send? || a.Forget? || a.Ask?)
  }

  /**
   run never waits on retryc or in its flush loop, and never writes to a closed connection: in every
   reachable state it has a step to take, whatever the connection answers.
   */
  lemma NeverStuck(capacity: nat, run: seq<Step>, s: State) returns (a: Step)
    requires Reaches(capacity, run, s)
    ensures OfRun(a) && Can(s, a)
    ensures s.pc.Pushing? ==> a == Push && s.retryc == []
    ensures s.pc.Flushing? && s.pc.i < s.pc.n && s.conn ==> a == FlushNext && |s.outc| >= s.pc.n - s.pc.i
    ensures s.pc.Writing? ==> s.conn && a.Write?
  {
    Reached(capacity, run, s);
    match s.pc
    case Top => a := if !s.conn then Connect(false) else if s.retryc == [] then NoRetry else TakeRetry;
    case Draining(_) => a := Drain;
    case Select => a := Tick;
    case Requested(_) => a := Measure;
    case Flushing(i, n, _) => a := if i < n && s.conn then FlushNext else FlushDone;
    case Writing(b, _) =>
      assert Owners(s, b) <= Count(b < |s.bufs|);
      a := Write(|s.bufs[b]|, true);
    case Pushing(_, _) => a := Push;
  }
}
