/**
 The stream of bytes that run delivers, over all connections, reconnects, partial writes and retries: for
 each chunk in the order it was enqueued, a prefix of it, which is the whole chunk unless its second
 attempt failed too.
 */
module SinkDelivery {
  import opened Options
  import opened SinkBuffer
  import opened SinkProtocol
  import opened SinkOwnership

  /** The consumer has taken a chunk off outc and is not done with it. */
  predicate InFlight(s: State) {
    s.pc.Writing? || s.pc.Pushing? || s.retryc != []
  }

  /** The buffer of that chunk. */
  function Current(s: State): nat
    requires InFlight(s)
  {
    if s.pc.Writing? || s.pc.Pushing? then s.pc.b else s.retryc[0]
  }

  /** The chunks taken off outc that the consumer is done with. */
  function Done(s: State): int {
    |s.parts| - if InFlight(s) then 1 else 0
  }

  /** Of chunk j a prefix was written, all of it unless both attempts failed. */
  predicate Settled(s: State, j: nat)
    requires j < |s.parts|
  {
    && |s.parts| == |s.tries| && |s.parts| <= |s.enq|
    && s.parts[j] <= s.enq[j] && 1 <= s.tries[j] <= 2
    && (s.parts[j] == s.enq[j] || (s.tries[j] == 2 && s.failed))
  }

  /** outc holds, in order, the chunks enqueued but not yet received. */
  predicate Queue(s: State) {
    && |s.enq| == |s.parts| + |s.outc| && |s.tries| == |s.parts|
    && forall k :: 0 <= k < |s.outc| ==> s.outc[k] < |s.bufs| && s.bufs[s.outc[k]] == s.enq[|s.parts| + k]
  }

  /** What was written of the chunk in flight and what its buffer still holds make up the chunk. */
  predicate Last(s: State) {
    InFlight(s) ==>
      && 0 < |s.parts| == |s.tries| <= |s.enq| && Current(s) < |s.bufs|
      && s.parts[|s.parts| - 1] + s.bufs[Current(s)] == s.enq[|s.parts| - 1]
      && s.tries[|s.parts| - 1] == Count(!(s.pc.Writing? && s.pc.from != Retry))
      && (!(s.pc.Writing? && s.pc.from != Retry) ==> s.failed)
  }

  predicate Past(s: State) {
    forall j: nat :: j < Done(s) ==> Settled(s, j)
  }

  /** Buffers in outc are nobody else's; the buffer in flight is only the consumer's. */
  predicate Apart(s: State) {
    && (forall k :: 0 <= k < |s.outc| ==>
         s.outc[k] !in s.pool && s.making != Some(s.outc[k]) && !(InFlight(s) && Current(s) == s.outc[k]))
    && (InFlight(s) ==> Current(s) !in s.pool && s.making != Some(Current(s)))
  }

  lemma OwnedOnce(s: State, b: nat)
    requires Owned(s)
    ensures
      Count(b in s.pool) + Count(b in s.outc) + Count(b in s.retryc)
      + Count(s.making == Some(b)) + Count(Holds(s.pc, b)) <= 1
  {
    assert Owners(s, b) <= 1;
    TimesIn(s.outc, b);
    TimesIn(s.retryc, b);
  }

  lemma OwnedApart(s: State)
    requires Owned(s)
    ensures Apart(s)
  {
    forall k | 0 <= k < |s.outc|
      ensures s.outc[k] !in s.pool && s.making != Some(s.outc[k]) && !(InFlight(s) && Current(s) == s.outc[k])
    {
      OwnedOnce(s, s.outc[k]);
    }
    if InFlight(s) {
      OwnedOnce(s, Current(s));
    }
  }

  predicate Stream(s: State) {
    Queue(s) && Last(s) && Past(s) && s.sent == Flat(s.parts)
  }

  /** What was settled stays so when the histories only grow. */
  lemma PastKept(s: State, r: State)
    requires Past(s) && Done(r) <= Done(s) && (s.failed ==> r.failed)
    requires Done(s) <= |s.parts| == |s.tries| && Done(s) <= |r.parts| == |r.tries| <= |r.enq|
    requires forall j :: 0 <= j < Done(s) ==> r.parts[j] == s.parts[j] && r.tries[j] == s.tries[j]
    requires s.enq <= r.enq
    ensures Past(r)
  {
    forall j: nat | j < Done(r)
      ensures Settled(r, j)
    {
      assert Settled(s, j);
    }
  }

  lemma StreamFilled(s: State, b: nat, chunk: string)
    requires Can(s, Fill(b, chunk)) && Stream(s) && Apart(s)
    ensures Stream(Do(s, Fill(b, chunk)))
  {
    PastKept(s, Do(s, Fill(b, chunk)));
  }

  lemma QueueSent(s: State)
    requires Can(s, Send) && Queue(s)
    ensures Queue(Do(s, Send)) && s.enq <= Do(s, Send).enq
  {
  }

  lemma StreamSent(s: State)
    requires Can(s, Send) && Stream(s)
    ensures Stream(Do(s, Send))
  {
    QueueSent(s);
    PastKept(s, Do(s, Send));
  }

  lemma StreamRetried(s: State, a: Step)
    requires Can(s, a) && Stream(s) && Loop(s) && (a.TakeRetry? || a.Push?)
    ensures Stream(Do(s, a))
  {
    PastKept(s, Do(s, a));
  }

  lemma StreamReceived(s: State, from: Source)
    requires Stream(s) && s.outc != [] && !InFlight(s) && from != Retry
    ensures Stream(Receive(s, from))
  {
    FlatAppend(s.parts, "");
    PastKept(s, Receive(s, from));
  }

  lemma FlatLast(parts: seq<string>, out: string)
    requires parts != []
    ensures Flat(OnLast(parts, p => p + out)) == Flat(parts) + out
  {
    var longer := OnLast(parts, p => p + out);
    assert longer[..|longer| - 1] == parts[..|parts| - 1];
  }

  lemma StreamWritten(s: State, n: nat, ok: bool)
    requires Can(s, Write(n, ok)) && Stream(s) && Apart(s) && Loop(s)
    ensures Stream(Do(s, Write(n, ok)))
  {
    var r := Do(s, Write(n, ok));
    FlatLast(s.parts, s.bufs[s.pc.b][..n]);
    forall j: nat | j < Done(r)
      ensures Settled(r, j)
    {
      if j < Done(s) {
        assert Settled(s, j);
      }
    }
  }

  /** The other steps move no chunk. */
  predicate Carries(a: Step) {
    a.Fill? || a.Send? || a.TakeOut? || a.FlushNext? || a.Write? || a.TakeRetry? || a.Push?
  }

  lemma StreamSame(s: State, r: State)
    requires Stream(s) && r.bufs == s.bufs && r.outc == s.outc && r.retryc == s.retryc && r.enq == s.enq
    requires r.parts == s.parts && r.tries == s.tries && r.sent == s.sent && r.failed == s.failed
    requires r.pc == s.pc || !(s.pc.Writing? || s.pc.Pushing? || r.pc.Writing? || r.pc.Pushing?)
    ensures Stream(r)
  {
    PastKept(s, r);
  }

  lemma StreamElse(s: State, a: Step)
    requires Can(s, a) && Stream(s) && !Carries(a)
    ensures Stream(Do(s, a))
  {
    var r := Do(s, a);
    assert a.Forget? || a.Ask? || !(r.pc.Writing? || r.pc.Pushing? || s.pc.Writing? || s.pc.Pushing?);
    StreamSame(s, Do(s, a));
  }

  lemma StreamStep(s: State, a: Step)
    requires Can(s, a) && Stream(s) && Owned(s) && Loop(s)
    ensures Stream(Do(s, a))
  {
    OwnedApart(s);
    if a.Fill? {
      StreamFilled(s, a.b, a.chunk);
    } else if a.Send? {
      StreamSent(s);
    } else if a.TakeRetry? || a.Push? {
      StreamRetried(s, a);
    } else if a.TakeOut? {
      StreamReceived(s, Out);
    } else if a.FlushNext? {
      StreamReceived(s, InFlush(s.pc.i, s.pc.n, s.pc.d));
    } else if a.Write? {
      StreamWritten(s, a.n, a.ok);
    } else {
      StreamElse(s, a);
    }
  }

  lemma {:induction false} StreamReached(capacity: nat, run: seq<Step>, s: State)
    requires Reaches(capacity, run, s)
    ensures Stream(s)
  {
    if run != [] {
      var before := run[..|run| - 1];
      StreamReached(capacity, before, Exec(capacity, before).value);
      Reached(capacity, before, Exec(capacity, before).value);
      StreamStep(Exec(capacity, before).value, run[|run| - 1]);
    }
  }

  /**
   Delivery: the bytes sent are, for each chunk received, in the order the chunks were enqueued, a prefix of
   it; a chunk is tried at most twice, and is sent whole unless the run is still at it or both tries failed.
   */
  lemma DeliveredInOrder(capacity: nat, run: seq<Step>, s: State)
    requires Reaches(capacity, run, s)
    ensures s.sent == Flat(s.parts) && |s.parts| == |s.tries| == |s.enq| - |s.outc|
    ensures forall j :: 0 <= j < |s.parts| ==> s.parts[j] <= s.enq[j] && s.tries[j] <= 2
    ensures forall j :: 0 <= j < Done(s) ==> s.parts[j] == s.enq[j] || (s.tries[j] == 2 && s.failed)
    ensures forall k :: 0 <= k < |s.outc| ==> s.outc[k] < |s.bufs| && s.bufs[s.outc[k]] == s.enq[|s.parts| + k]
  {
    StreamReached(capacity, run, s);
    forall j: nat | j < Done(s)
      ensures s.parts[j] <= s.enq[j] && s.tries[j] <= 2 && (s.parts[j] == s.enq[j] || (s.tries[j] == 2 && s.failed))
    {
      assert Settled(s, j);
    }
  }

  /** While no write fails, what was sent is exactly the chunks received, whole and in order. */
  lemma DeliveredVerbatim(capacity: nat, run: seq<Step>, s: State)
    requires Reaches(capacity, run, s) && !s.failed && !s.pc.Writing?
    ensures |s.parts| <= |s.enq| && s.sent == Flat(s.enq[..|s.parts|])
  {
    DeliveredInOrder(capacity, run, s);
    StreamReached(capacity, run, s);
    assert s.parts == s.enq[..|s.parts|];
  }
}
