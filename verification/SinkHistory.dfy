/**
 What a run of the sink did, told from the run itself: the chunks offered and enqueued, the bytes the connection
 took, the failed connects. The history variables of the step machine are proved to say the same, a chunk is
 refused only when outc is full, and requests are drained only after two failed connects in a row.
 */
module SinkHistory {
  import opened Options
  import opened SinkProtocol
  import opened SinkOwnership
  import opened SinkDelivery

  /** The chunk that sinkWriter.Write filled last. */
  function LastFill(run: seq<Step>): string {
    if run == [] then ""
    else
      var a := run[|run| - 1];
      if a.Fill? then a.chunk else LastFill(run[..|run| - 1])
  }

  /** The chunks of all sends on outc. */
  function Offered(run: seq<Step>): seq<string> {
    if run == [] then []
    else
      var before := run[..|run| - 1];
      Offered(before) + if run[|run| - 1].Send? then [LastFill(before)] else []
  }

  /** The chunks of those sends that met fewer than `capacity` chunks waiting. */
  function Enqueued(capacity: nat, run: seq<Step>): seq<string> {
    if run == [] then []
    else
      var before := run[..|run| - 1];
      var m := Exec(capacity, before);
      Enqueued(capacity, before)
      + if run[|run| - 1].Send? && m.Some? && |m.value.outc| < capacity then [LastFill(before)] else []
  }

  /** For each request the number of chunks enqueued before it. */
  function Marks(capacity: nat, run: seq<Step>): seq<nat> {
    if run == [] then []
    else
      var before := run[..|run| - 1];
      Marks(capacity, before) + if run[|run| - 1].Ask? then [|Enqueued(capacity, before)|] else []
  }

  /** The bytes the connection took. */
  function Taken(run: seq<Step>): nat {
    if run == [] then 0
    else
      var a := run[|run| - 1];
      Taken(run[..|run| - 1]) + if a.Write? then a.n else 0
  }

  predicate WriteFailed(run: seq<Step>) {
    exists a :: a in run && a.Write? && !a.ok
  }

  /** How many connects in a row have failed. */
  function FailedConnects(run: seq<Step>): nat {
    if run == [] then 0
    else
      var a := run[|run| - 1];
      var was := FailedConnects(run[..|run| - 1]);
      if a.Connect? then if a.ok then 0 else was + 1 else was
  }

  /** How many requests drainFlushQueue has looked for since the last connect. */
  function DrainTurns(run: seq<Step>): nat {
    if run == [] then 0
    else
      var a := run[|run| - 1];
      if a.Connect? then 0 else DrainTurns(run[..|run| - 1]) + if a.Drain? then 1 else 0
  }

  /** The history variables say what the run did. */
  predicate Tells(capacity: nat, run: seq<Step>, s: State) {
    && s.capacity == capacity && s.enq == Enqueued(capacity, run) && s.marks == Marks(capacity, run)
    && |s.sent| == Taken(run) && (s.failed <==> WriteFailed(run))
    && (s.making.Some? ==> s.making.value < |s.bufs| && s.bufs[s.making.value] == LastFill(run))
  }

  /** The channels hold no more than they can. */
  predicate Bounded(s: State) {
    |s.outc| <= s.capacity && |s.doFlush| <= 8 && |s.retryc| <= 1
  }

  /** run drains requests only after two connects have failed in a row, and 64 of them at most. */
  predicate Drains(run: seq<Step>, s: State) {
    && (s.reconnectFailed <==> FailedConnects(run) > 0)
    && (s.pc.Draining? ==> FailedConnects(run) >= 2 && s.pc.i == DrainTurns(run) <= 64)
  }

  lemma FailedMore(run: seq<Step>, a: Step)
    ensures WriteFailed(run + [a]) <==> WriteFailed(run) || (a.Write? && !a.ok)
  {
    assert forall x :: x in run + [a] <==> x in run || x == a;
    assert a in run + [a];
  }

  lemma TellsMore(capacity: nat, run: seq<Step>, a: Step, m: State)
    requires Reaches(capacity, run, m)
    ensures
      var longer := run + [a];
      && LastFill(longer) == (if a.Fill? then a.chunk else LastFill(run))
      && Enqueued(capacity, longer) ==
           Enqueued(capacity, run) + (if a.Send? && |m.outc| < capacity then [LastFill(run)] else [])
      && Marks(capacity, longer) == Marks(capacity, run) + (if a.Ask? then [|Enqueued(capacity, run)|] else [])
      && Taken(longer) == Taken(run) + (if a.Write? then a.n else 0)
  {
    assert (run + [a])[..|run|] == run && (run + [a])[|run|] == a;
  }

  lemma TellsWritten(capacity: nat, run: seq<Step>, n: nat, ok: bool, m: State)
    requires Reaches(capacity, run, m) && Can(m, Write(n, ok)) && Tells(capacity, run, m) && Owned(m)
    ensures Tells(capacity, run + [Write(n, ok)], Do(m, Write(n, ok)))
  {
    TellsMore(capacity, run, Write(n, ok), m);
    FailedMore(run, Write(n, ok));
    OwnedOnce(m, m.pc.b);
  }

  lemma TellsProduced(capacity: nat, run: seq<Step>, a: Step, m: State)
    requires Reaches(capacity, run, m) && Can(m, a) && Tells(capacity, run, m) && (a.Fill? || a.Send? || a.Ask?)
    ensures Tells(capacity, run + [a], Do(m, a))
  {
    TellsMore(capacity, run, a, m);
    FailedMore(run, a);
  }

  lemma Silent(m: State, a: Step)
    requires Can(m, a) && !a.Write? && !a.Fill? && !a.Send? && !a.Ask?
    ensures
      var r := Do(m, a);
      && r.capacity == m.capacity && r.enq == m.enq && r.marks == m.marks && r.sent == m.sent
      && r.failed == m.failed && r.making == m.making && r.bufs == m.bufs
  {
  }

  lemma TellsElse(capacity: nat, run: seq<Step>, a: Step, m: State)
    requires Reaches(capacity, run, m) && Can(m, a) && Tells(capacity, run, m)
    requires !a.Write? && !a.Fill? && !a.Send? && !a.Ask?
    ensures Tells(capacity, run + [a], Do(m, a))
  {
    TellsMore(capacity, run, a, m);
    FailedMore(run, a);
    Silent(m, a);
  }

  lemma BoundedStep(s: State, a: Step)
    requires Can(s, a) && Bounded(s)
    ensures Bounded(Do(s, a))
  {
  }

  lemma DrainsStep(run: seq<Step>, a: Step, s: State)
    requires Can(s, a) && Drains(run, s)
    ensures Drains(run + [a], Do(s, a))
  {
    assert (run + [a])[..|run|] == run && (run + [a])[|run|] == a;
  }

  lemma {:induction false} HistoryReached(capacity: nat, run: seq<Step>, s: State)
    requires Reaches(capacity, run, s)
    ensures Tells(capacity, run, s) && Bounded(s) && Drains(run, s)
  {
    if run != [] {
      var before, a := run[..|run| - 1], run[|run| - 1];
      var m := Exec(capacity, before).value;
      assert run == before + [a];
      HistoryReached(capacity, before, m);
      Reached(capacity, before, m);
      if a.Write? {
        TellsWritten(capacity, before, a.n, a.ok, m);
      } else if a.Fill? || a.Send? || a.Ask? {
        TellsProduced(capacity, before, a, m);
      } else {
        TellsElse(capacity, before, a, m);
      }
      BoundedStep(m, a);
      DrainsStep(before, a, m);
    }
  }

  /**
   The history of every run: the chunks enqueued are those of the sends that met room, `marks` counts them at
   each request, `sent` has as many bytes as the connection took, and no channel holds more than it can.
   */
  lemma HistoryTold(capacity: nat, run: seq<Step>, s: State)
    requires Reaches(capacity, run, s)
    ensures s.enq == Enqueued(capacity, run) && s.marks == Marks(capacity, run)
    ensures |s.sent| == Taken(run) && (s.failed <==> WriteFailed(run))
    ensures |s.outc| <= capacity && |s.doFlush| <= 8 && |s.retryc| <= 1
    ensures Can(s, Ask) <==> |s.doFlush| < 8
  {
    HistoryReached(capacity, run, s);
  }

  lemma {:induction false} AllEnqueued(capacity: nat, run: seq<Step>, s: State)
    requires Reaches(capacity, run, s) && |s.enq| < capacity
    ensures Enqueued(capacity, run) == Offered(run)
  {
    if run != [] {
      var before, a := run[..|run| - 1], run[|run| - 1];
      var m := Exec(capacity, before).value;
      HistoryReached(capacity, before, m);
      HistoryReached(capacity, run, s);
      StreamReached(capacity, before, m);
      AllEnqueued(capacity, before, m);
    }
  }

  /** In a run in which outc was given fewer chunks than it holds, no send is refused, whatever the consumer does. */
  lemma NothingRefused(capacity: nat, run: seq<Step>, s: State)
    requires Reaches(capacity, run, s) && |s.enq| < capacity
    ensures s.enq == Offered(run)
  {
    HistoryReached(capacity, run, s);
    AllEnqueued(capacity, run, s);
  }

  /**
   When requests are drained: a connect leads to it if and only if it fails and the one before it failed too, and
   it ends when none is waiting or 64 were closed.
   */
  lemma DrainsExactly(capacity: nat, run: seq<Step>, s: State, ok: bool)
    requires Reaches(capacity, run, s)
    ensures s.pc.Draining? ==> FailedConnects(run) >= 2 && DrainTurns(run) <= 64
    ensures Can(s, Drain) ==> (Do(s, Drain).pc == Top <==> s.doFlush == [] || DrainTurns(run) == 64)
    ensures Can(s, Connect(ok)) ==> (Do(s, Connect(ok)).pc.Draining? <==> FailedConnects(run + [Connect(ok)]) >= 2)
  {
    HistoryReached(capacity, run, s);
    assert (run + [Connect(ok)])[..|run|] == run;
  }
}
