/**
 The consumer gets somewhere: from every reachable state, if the connection is accepted and takes all it is given
 from then on, run alone writes every chunk waiting and closes the channel of every request.
 */
module SinkProgress {
  import opened Options
  import opened SinkBuffer
  import opened SinkProtocol
  import opened SinkOwnership
  import opened SinkDelivery

  /** What run does next when the connection is good; in the select it takes a request first, then a chunk. */
  function NextStep(s: State): Step {
    match s.pc
    case Top => if !s.conn then Connect(true) else if s.retryc == [] then NoRetry else TakeRetry
    case Draining(_) => Drain
    case Select => if s.doFlush != [] then TakeFlush else if s.outc != [] then TakeOut else Tick
    case Requested(_) => Measure
    case Flushing(i, n, _) => if i < n && s.conn then FlushNext else FlushDone
    case Writing(b, _) => Write(if b < |s.bufs| then |s.bufs[b]| else 0, true)
    case Pushing(_, _) => Push
  }

  /** run waits in its select with nothing to do. */
  predicate Waiting(s: State) {
    s.pc == Select && s.outc == [] && s.doFlush == []
  }

  /** How far run is from its next select, everything in the channels left aside. */
  function Rank(s: State): nat {
    match s.pc
    case Top => if s.conn then 1 else 2
    case Draining(_) => 3
    case Select => 0
    case Requested(_) => 4
    case Flushing(_, _, _) => 3
    case Writing(_, _) => 5
    case Pushing(_, _) => 6
  }

  function Retries(s: State): nat {
    |s.retryc| + Count(s.pc.Pushing?)
  }

  /** From s to r there is less to do, and nothing was enqueued, asked for or failed. */
  predicate Nearer(s: State, r: State) {
    && r.enq == s.enq && r.marks == s.marks && r.failed == s.failed
    && |r.doFlush| <= |s.doFlush| && |r.outc| <= |s.outc|
    && (|r.doFlush| < |s.doFlush| || |r.outc| < |s.outc| || Retries(r) < Retries(s)
        || (Retries(r) == Retries(s) && Rank(r) < Rank(s)))
  }

  lemma WriteNearer(s: State)
    requires Loop(s) && Last(s) && s.pc.Writing?
    ensures Can(s, NextStep(s)) && Nearer(s, Do(s, NextStep(s)))
  {
  }

  lemma LoopNearer(s: State)
    requires Loop(s) && Queue(s) && !Waiting(s) && (s.pc.Top? || s.pc.Select? || s.pc.Draining? || s.pc.Requested?)
    ensures Can(s, NextStep(s)) && Nearer(s, Do(s, NextStep(s)))
  {
  }

  lemma FlushNearer(s: State)
    requires Loop(s) && Queue(s) && (s.pc.Flushing? || s.pc.Pushing?)
    ensures Can(s, NextStep(s)) && Nearer(s, Do(s, NextStep(s)))
  {
  }

  lemma Advance(capacity: nat, run: seq<Step>, s: State) returns (a: Step, r: State)
    requires Reaches(capacity, run, s) && !Waiting(s)
    ensures Reaches(capacity, run + [a], r) && OfRun(a) && Nearer(s, r)
  {
    Reached(capacity, run, s);
    StreamReached(capacity, run, s);
    a := NextStep(s);
    if s.pc.Writing? {
      WriteNearer(s);
    } else if s.pc.Flushing? || s.pc.Pushing? {
      FlushNearer(s);
    } else {
      LoopNearer(s);
    }
    r := Do(s, a);
    assert (run + [a])[..|run|] == run;
  }

  /** run alone, with a good connection, comes to wait in its select with nothing left to do. */
  lemma RunsDry(capacity: nat, run: seq<Step>, s: State) returns (more: seq<Step>, r: State)
    requires Reaches(capacity, run, s)
    ensures Reaches(capacity, run + more, r) && Waiting(r) && forall a :: a in more ==> OfRun(a)
    ensures r.enq == s.enq && r.marks == s.marks && r.failed == s.failed
  {
    more, r := [], s;
    assert run + more == run;
    while !Waiting(r)
      invariant Reaches(capacity, run + more, r) && forall a :: a in more ==> OfRun(a)
      invariant r.enq == s.enq && r.marks == s.marks && r.failed == s.failed
      decreases |r.doFlush|, |r.outc|, Retries(r), Rank(r)
    {
      var a, m := Advance(capacity, run + more, r);
      assert run + more + [a] == run + (more + [a]);
      more, r := more + [a], m;
    }
  }

  /**
   From every reachable state run alone, with a good connection, can bring it about that every chunk enqueued was
   written, whole unless an earlier write of it failed twice, and that every request's channel is closed.
   */
  lemma AllGetsDone(capacity: nat, run: seq<Step>, s: State) returns (more: seq<Step>, r: State)
    requires Reaches(capacity, run, s)
    ensures Reaches(capacity, run + more, r) && forall a :: a in more ==> OfRun(a)
    ensures r.enq == s.enq && |r.parts| == |r.tries| == |r.enq|
    ensures forall j :: 0 <= j < |r.enq| ==> r.parts[j] == r.enq[j] || (r.tries[j] == 2 && s.failed)
    ensures !s.failed ==> r.sent == Flat(s.enq)
    ensures forall d: nat :: d < |s.marks| ==> d in r.closed
  {
    more, r := RunsDry(capacity, run, s);
    Reached(capacity, run + more, r);
    DeliveredInOrder(capacity, run + more, r);
    forall d: nat | d < |s.marks|
      ensures d in r.closed
    {
      ClosedOnce(capacity, run + more, r, d);
    }
    if !s.failed {
      DeliveredVerbatim(capacity, run + more, r);
      assert r.enq[..|r.parts|] == s.enq;
    }
  }
}
