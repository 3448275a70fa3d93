/**
 netSink as a step machine: the one goroutine in `run`, the producers that fill chunks under the mutex,
 and the callers of Flush. A step is one operation on a channel, the pool or the connection; what the
 connection does is an arbitrary choice of each step.
 */
module SinkProtocol {
  import opened Options

  /** The statement of run that a write belongs to; InFlush(i, n, d) is turn i of n of the loop serving request d. */
  datatype Source = Retry | Out | InFlush(i: nat, n: nat, d: nat)

  /** Where run stands between two steps. */
  datatype Pc =
    | Top                                  // the head of the loop
    | Draining(i: nat)                     // drainFlushQueue, after i turns
    | Select                               // retryc was empty, before the blocking select
    | Requested(d: nat)                    // received a request, before len(outc)
    | Flushing(i: nat, n: nat, d: nat)     // the head of the flush loop
    | Writing(b: nat, from: Source)        // holds a buffer, before writeToConn
    | Pushing(b: nat, from: Source)        // the write failed, before the send on retryc

  /**
   Buffers and requests are numbered. `bufs` holds the unread bytes of each buffer, `making` the buffer
   that sinkWriter.Write is filling, `outc`, `retryc` and `doFlush` the channels' contents. History:
   `enq` the chunks put on outc; for each chunk taken off it, `parts` the bytes written and `tries` the
   calls of writeToConn; `sent` all bytes written; `marks` for each request the number of chunks enqueued
   before it; `closed` the requests whose channel was closed; `failed` whether a write ever failed.
   */
  datatype State = State(
    capacity: nat, bufs: seq<string>, pool: multiset<nat>, making: Option<nat>,
    outc: seq<nat>, retryc: seq<nat>, doFlush: seq<nat>, conn: bool, reconnectFailed: bool, pc: Pc,
    enq: seq<string>, parts: seq<string>, tries: seq<nat>, sent: string,
    marks: seq<nat>, closed: seq<nat>, failed: bool)

  datatype Step =
    | Fill(b: nat, chunk: string)   // getBuffer and dest.Write
    | Send                          // the send on outc that does not wait
    | Forget(b: nat)                // the pool lets go of a buffer
    | Ask                           // Flush: the send on doFlush
    | Connect(ok: bool)
    | Drain
    | TakeRetry
    | NoRetry
    | Tick
    | TakeOut
    | TakeFlush
    | Measure
    | FlushNext
    | FlushDone
    | Write(n: nat, ok: bool)
    | Push

  const REQUESTS: nat := 8
  const DRAINED: nat := REQUESTS * 8

  function Init(capacity: nat): State {
    State(capacity, [], multiset{}, None, [], [], [], false, false, Top, [], [], [], "", [], [], false)
  }

  predicate Can(s: State, a: Step) {
    match a
    case Fill(b, _) => s.making == None && (b == |s.bufs| || (b < |s.bufs| && b in s.pool))
    case Send => s.making.Some? && s.making.value < |s.bufs|
    case Forget(b) => b in s.pool
    case Ask => |s.doFlush| < REQUESTS
    case Connect(_) => s.pc == Top && !s.conn
    case Drain => s.pc.Draining?
    case TakeRetry => s.pc == Top && s.conn && s.retryc != []
    case NoRetry => s.pc == Top && s.conn && s.retryc == []
    case Tick => s.pc == Select
    case TakeOut => s.pc == Select && s.outc != []
    case TakeFlush => s.pc == Select && s.doFlush != []
    case Measure => s.pc.Requested?
    case FlushNext => s.pc.Flushing? && s.pc.i < s.pc.n && s.conn && s.outc != []
    case FlushDone => s.pc.Flushing? && !(s.pc.i < s.pc.n && s.conn)
    case Write(n, ok) =>
      && s.pc.Writing? && s.conn && s.pc.b < |s.bufs| && n <= |s.bufs[s.pc.b]|
      && (ok ==> n == |s.bufs[s.pc.b]|) && (s.bufs[s.pc.b] == "" ==> ok)
    case Push => s.pc.Pushing? && s.retryc == []
  }

  /** Where run goes when it is done with a buffer. */
  function Return(from: Source): Pc {
    if from.InFlush? then Flushing(from.i + 1, from.n, from.d) else Top
  }

  /** Receiving the oldest chunk of outc. */
  function Receive(s: State, from: Source): State
    requires s.outc != []
  {
    s.(outc := s.outc[1..], parts := s.parts + [""], tries := s.tries + [0], pc := Writing(s.outc[0], from))
  }

  function OnLast<T>(q: seq<T>, f: T -> T): seq<T> {
    if q == [] then [] else q[|q| - 1 := f(q[|q| - 1])]
  }

  /**
   writeToConn: bytes.Buffer.WriteTo consumes what the connection took, all of it unless there is an error;
   an error closes the connection. A chunk that fails on its second attempt is given up.
   */
  function Written(s: State, n: nat, ok: bool): State
    requires Can(s, Write(n, ok))
  {
    var b, from := s.pc.b, s.pc.from;
    var out := s.bufs[b][..n];
    s.(bufs := s.bufs[b := s.bufs[b][n..]], sent := s.sent + out, conn := ok, failed := s.failed || !ok,
       parts := OnLast(s.parts, p => p + out), tries := OnLast(s.tries, t => t + 1),
       pool := if ok || from == Retry then s.pool + multiset{b} else s.pool,
       pc := if ok || from == Retry then Return(from) else Pushing(b, from))
  }

  function Do(s: State, a: Step): State
    requires Can(s, a)
  {
    match a
    case Fill(b, chunk) =>
      s.(bufs := if b == |s.bufs| then s.bufs + [chunk] else s.bufs[b := chunk],
         pool := s.pool - multiset{b}, making := Some(b))
    case Send =>
      if |s.outc| < s.capacity
      then s.(outc := s.outc + [s.making.value], enq := s.enq + [s.bufs[s.making.value]], making := None)
      else s.(making := None)
    case Forget(b) => s.(pool := s.pool - multiset{b})
    case Ask => s.(doFlush := s.doFlush + [|s.marks|], marks := s.marks + [|s.enq|])
    case Connect(ok) =>
      if ok then s.(conn := true, reconnectFailed := false)
      else s.(reconnectFailed := true, pc := if s.reconnectFailed then Draining(0) else Top)
    case Drain =>
      if s.pc.i < DRAINED && s.doFlush != []
      then s.(doFlush := s.doFlush[1..], closed := s.closed + [s.doFlush[0]], pc := Draining(s.pc.i + 1))
      else s.(pc := Top)
    case TakeRetry => s.(retryc := s.retryc[1..], pc := Writing(s.retryc[0], Retry))
    case NoRetry => s.(pc := Select)
    case Tick => s.(pc := Top)
    case TakeOut => Receive(s, Out)
    case TakeFlush => s.(doFlush := s.doFlush[1..], pc := Requested(s.doFlush[0]))
    case Measure => s.(pc := Flushing(0, |s.outc|, s.pc.d))
    case FlushNext => Receive(s, InFlush(s.pc.i, s.pc.n, s.pc.d))
    case FlushDone => s.(closed := s.closed + [s.pc.d], pc := Top)
    case Write(n, ok) => Written(s, n, ok)
    case Push => s.(retryc := s.retryc + [s.pc.b], pc := Return(s.pc.from))
  }

  function Exec(capacity: nat, run: seq<Step>): Option<State> {
    if run == [] then Some(Init(capacity))
    else
      var before := Exec(capacity, run[..|run| - 1]);
      var a := run[|run| - 1];
      if before.Some? && Can(before.value, a) then Some(Do(before.value, a)) else None
  }

  /** The sink can be in state s after the run. */
  predicate Reaches(capacity: nat, run: seq<Step>, s: State) {
    Exec(capacity, run) == Some(s)
  }
}
