/** What the caller of Flush may rely on when its channel is closed. */
module SinkBarrier {
  import opened SinkProtocol
  import opened SinkOwnership
  import opened SinkDelivery

  /** The chunks enqueued before request d are all received once the turns left of the loop serving d are. */
  predicate Reaching(s: State, d: nat, turns: int) {
    d < |s.marks| && s.marks[d] <= |s.parts| + turns
  }

  predicate Marked(s: State) {
    && (forall d :: 0 <= d < |s.marks| ==> s.marks[d] <= |s.enq|)
    && (s.pc.Flushing? && s.conn ==> Reaching(s, s.pc.d, s.pc.n - s.pc.i))
    && (s.pc.Writing? && s.pc.from.InFlush? ==> Reaching(s, s.pc.from.d, s.pc.from.n - s.pc.from.i - 1))
  }

  /** Before the first failed write the connection is down only while it was never up. */
  predicate Fresh(s: State) {
    !s.failed && !s.conn ==> s.parts == [] && (s.pc == Top || s.pc.Draining?)
  }

  lemma MarkedWritten(s: State, n: nat, ok: bool)
    requires Can(s, Write(n, ok)) && Marked(s)
    ensures Marked(Do(s, Write(n, ok)))
  {
  }

  lemma MarkedReceived(s: State, from: Source)
    requires Marked(s) && s.outc != [] && (from.InFlush? ==> Reaching(s, from.d, from.n - from.i))
    ensures Marked(Receive(s, from))
  {
  }

  lemma MarkedProduced(s: State, a: Step)
    requires Can(s, a) && Marked(s) && (a.Fill? || a.Send? || a.Forget? || a.Ask?)
    ensures Marked(Do(s, a))
  {
  }

  lemma MarkedStep(s: State, a: Step)
    requires Can(s, a) && Marked(s) && Loop(s) && Queue(s) && Asked(s)
    ensures Marked(Do(s, a))
  {
    if a.Write? {
      MarkedWritten(s, a.n, a.ok);
    } else if a.TakeOut? {
      MarkedReceived(s, Out);
    } else if a.FlushNext? {
      MarkedReceived(s, InFlush(s.pc.i, s.pc.n, s.pc.d));
    } else if !OfRun(a) {
      MarkedProduced(s, a);
    } else if a.Measure? {
      assert Places(s, s.pc.d) == Count(s.pc.d < |s.marks|);
    }
  }

  lemma FreshStep(s: State, a: Step)
    requires Can(s, a) && Fresh(s) && Loop(s)
    ensures Fresh(Do(s, a))
  {
  }

  lemma {:induction false} BarrierReached(capacity: nat, run: seq<Step>, s: State)
    requires Reaches(capacity, run, s)
    ensures Marked(s) && Fresh(s)
  {
    if run != [] {
      var before := run[..|run| - 1];
      var m := Exec(capacity, before).value;
      BarrierReached(capacity, before, m);
      Reached(capacity, before, m);
      StreamReached(capacity, before, m);
      MarkedStep(m, run[|run| - 1]);
      FreshStep(m, run[|run| - 1]);
    }
  }

  /** The step closes the channel of request d. */
  predicate Closes(s: State, a: Step, d: nat)
    requires Can(s, a)
  {
    (a.FlushDone? && s.pc.d == d) || (a.Drain? && s.pc.i < DRAINED && s.doFlush != [] && s.doFlush[0] == d)
  }

  lemma ClosedIsAsked(s: State, a: Step, d: nat)
    requires Can(s, a) && Asked(s) && Closes(s, a, d)
    ensures d < |s.marks|
  {
    assert Places(s, d) == Count(d < |s.marks|);
    TimesIn(s.doFlush, d);
  }

  /** The chunks enqueued before request d were all written, whole. */
  predicate Delivered(s: State, d: nat)
    requires d < |s.marks|
  {
    s.marks[d] <= |s.parts| <= |s.enq| && forall j :: 0 <= j < s.marks[d] ==> s.parts[j] == s.enq[j]
  }

  /**
   If the connection is up when the flush loop closes the channel, every chunk enqueued before the request
   was written whole or given up after two failed writes.
   */
  lemma FlushSettles(capacity: nat, run: seq<Step>, s: State)
    requires Reaches(capacity, run, s) && Can(s, FlushDone) && s.conn
    ensures s.pc.d < |s.marks| && s.marks[s.pc.d] <= |s.parts| == |s.tries| <= |s.enq|
    ensures forall j :: 0 <= j < s.marks[s.pc.d] ==> s.parts[j] == s.enq[j] || s.tries[j] == 2
  {
    BarrierReached(capacity, run, s);
    Reached(capacity, run, s);
    DeliveredInOrder(capacity, run, s);
  }

  /**
   The flush barrier: while no write has failed, the channel of a request is closed with all chunks enqueued
   before it written, if and only if the flush loop closes it, or there were no such chunks. The other case
   is a sink that never got a connection and drains its requests.
   */
  lemma FlushBarrier(capacity: nat, run: seq<Step>, s: State, a: Step, d: nat)
    requires Reaches(capacity, run, s) && !s.failed && Can(s, a) && Closes(s, a, d)
    ensures d < |s.marks| && (Delivered(s, d) <==> a.FlushDone? || s.marks[d] == 0)
  {
    BarrierReached(capacity, run, s);
    Reached(capacity, run, s);
    DeliveredInOrder(capacity, run, s);
    ClosedIsAsked(s, a, d);
  }

  lemma Then(capacity: nat, run: seq<Step>, m: State, a: Step) returns (longer: seq<Step>, s: State)
    requires Reaches(capacity, run, m) && Can(m, a)
    ensures Reaches(capacity, longer, s) && s == Do(m, a)
  {
    longer, s := run + [a], Do(m, a);
    assert longer[..|run|] == run;
  }

  /** Such a run: one chunk, one request, two failed connects; the request is closed and nothing was sent. */
  lemma DrainedUnsent(chunk: string) returns (run: seq<Step>, s: State)
    ensures Reaches(1, run, s) && !s.failed && s.closed == [0] && s.marks == [1] && s.enq == [chunk] && s.parts == []
  {
    run, s := [], Init(1);
    run, s := Then(1, run, s, Fill(0, chunk));
    run, s := Then(1, run, s, Send);
    run, s := Then(1, run, s, Ask);
    run, s := Then(1, run, s, Connect(false));
    run, s := Then(1, run, s, Connect(false));
    run, s := Then(1, run, s, Drain);
  }
}
