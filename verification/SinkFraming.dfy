/**
 netSink's producers: writeBuffer, flush and the handling of flush errors, each run under the mutex. In
 every sequence of them, failed sends and oversize lines included, chunks are made of whole lines, in
 order, and every byte is accounted for.
 */
module SinkFraming {
  import opened Word64
  import opened SinkBuffer

  /** a is b with some elements left out. */
  predicate Kept(a: seq<string>, b: seq<string>) {
    a == [] || (b != [] && ((a[|a| - 1] == b[|b| - 1] && Kept(a[..|a| - 1], b[..|b| - 1])) || Kept(a, b[..|b| - 1])))
  }

  lemma KeptBoth(a: seq<string>, b: seq<string>, x: string)
    requires Kept(a, b)
    ensures Kept(a + [x], b + [x]) && Kept(a, b + [x])
  {
    assert (a + [x])[..|a|] == a && (b + [x])[..|b|] == b;
  }

  lemma KeptMore(a: seq<string>, b: seq<string>)
    ensures b != [] && Kept(a, b[..|b| - 1]) ==> Kept(a, b)
  {
  }

  lemma {:induction false} KeptLess(a: seq<string>, c: seq<string>, b: seq<string>)
    requires Kept(a + c, b)
    ensures Kept(a, b)
    decreases |c|, |b|
  {
    if c == [] {
      assert a + c == a;
    } else {
      var s := a + c;
      assert s[..|s| - 1] == a + c[..|c| - 1] && s[|s| - 1] == c[|c| - 1];
      if b != [] && Kept(s, b[..|b| - 1]) {
        KeptLess(a, c, b[..|b| - 1]);
      } else {
        KeptLess(a, c[..|c| - 1], b[..|b| - 1]);
      }
      KeptMore(a, b);
    }
  }

  /** The lines of a list of chunks. */
  function Lines(groups: seq<seq<string>>): seq<string> {
    if groups == [] then [] else Lines(groups[..|groups| - 1]) + groups[|groups| - 1]
  }

  lemma LinesAppend(groups: seq<seq<string>>, g: seq<string>)
    ensures Lines(groups + [g]) == Lines(groups) + g
  {
    assert (groups + [g])[..|groups|] == groups;
  }

  /** A chunk: whole lines, at least one, within the buffer size, or one line longer than the buffer. */
  predicate Framed(chunk: string, lines: seq<string>, size: nat) {
    && lines != [] && chunk == Flat(lines) && chunk != ""
    && (|chunk| <= size || |lines| == 1)
  }

  predicate AllFramed(chunks: seq<string>, groups: seq<seq<string>>, size: nat) {
    |groups| == |chunks| && forall i :: 0 <= i < |chunks| ==> Framed(chunks[i], groups[i], size)
  }

  lemma OneMoreFramed(chunks: seq<string>, groups: seq<seq<string>>, size: nat, chunk: string, lines: seq<string>)
    requires AllFramed(chunks, groups, size) && Framed(chunk, lines, size)
    ensures AllFramed(chunks + [chunk], groups + [lines], size)
  {
  }

  /** Chunk by chunk or line by line the bytes are the same. */
  lemma {:induction false} FramedFlat(chunks: seq<string>, groups: seq<seq<string>>, size: nat)
    requires AllFramed(chunks, groups, size)
    ensures Flat(chunks) == Flat(Lines(groups))
  {
    if groups != [] {
      FramedFlat(chunks[..|chunks| - 1], groups[..|groups| - 1], size);
      FlatConcat(Lines(groups[..|groups| - 1]), groups[|groups| - 1]);
    }
  }

  lemma FlatOne(x: string)
    ensures Flat([x]) == x
  {
    assert [x][..0] == [];
  }

  lemma EmptyMeansNone(lines: seq<string>)
    requires Flat(lines) == "" && forall i :: 0 <= i < |lines| ==> lines[i] != ""
    ensures lines == []
  {
  }

  lemma Wrapped(total: nat, kept: nat, dropped: nat)
    requires total == kept + dropped
    ensures Congruent(total, kept + dropped % MODULUS)
  {
  }

  /** The bytes of the lines are those of the chunks, those buffered and those dropped, modulo 2^64. */
  predicate Accounted(lines: seq<string>, chunks: seq<string>, buffered: string, dropped: Word) {
    Congruent(|Flat(lines)|, |Flat(chunks)| + |buffered| + dropped)
  }

  /**
   The books of a run. `submitted`: the lines given to writeBuffer; `groups`: the lines of each chunk put on
   outc; `pending`: the lines buffered; `dropped`: droppedBytes without wrap-around; `uncounted`: bytes lost
   that droppedBytes does not count; `recounted`: bytes it counts though their chunk was enqueued.
   */
  datatype Books = Books(
    submitted: seq<string>, groups: seq<seq<string>>, pending: seq<string>,
    dropped: nat, uncounted: nat, recounted: nat)
  {
    /** The books fit the chunks accepted by outc and the bytes buffered: framing, order and byte accounting. */
    ghost predicate Fit(accepted: seq<string>, buf: string, size: nat) {
      && |buf| <= size && buf == Flat(pending) && (forall i :: 0 <= i < |pending| ==> pending[i] != "")
      && AllFramed(accepted, groups, size)
      && Kept(Lines(groups) + pending, submitted)
      && |Flat(submitted)| + recounted == |Flat(accepted)| + |buf| + dropped + uncounted
    }

    function Buffered(line: string): Books {
      this.(submitted := submitted + [line], pending := pending + [line])
    }

    function OwnChunk(line: string): Books {
      this.(submitted := submitted + [line], groups := groups + [[line]])
    }

    function Lost(line: string): Books {
      this.(submitted := submitted + [line], uncounted := uncounted + |line|)
    }

    function Flushed(): Books {
      if pending == [] then this else this.(groups := groups + [pending], pending := [])
    }

    function Dropped(): Books {
      this.(pending := [], dropped := dropped + |Flat(pending)|)
    }

    function GivenUp(rest: nat): Books {
      this.(pending := [], uncounted := uncounted + |Flat(pending)|,
            dropped := dropped + rest, recounted := recounted + rest)
    }

    /** Nothing was lost: the lines sent and those buffered are the lines submitted. */
    ghost predicate Whole() {
      dropped == uncounted == recounted == 0 && Lines(groups) + pending == submitted
    }

    /** Without uncounted bytes the books are those of droppedBytes. */
    lemma BytesCounted(accepted: seq<string>, buf: string, size: nat)
      requires Fit(accepted, buf, size)
      ensures uncounted == recounted == 0 ==> Accounted(submitted, accepted, buf, dropped % MODULUS)
    {
      if uncounted == recounted == 0 {
        Wrapped(|Flat(submitted)|, |Flat(accepted)| + |buf|, dropped);
      }
    }

    lemma BytesWhole(accepted: seq<string>, buf: string, size: nat)
      requires Fit(accepted, buf, size)
      ensures Whole() ==> Flat(accepted) + buf == Flat(submitted)
    {
      FramedFlat(accepted, groups, size);
      FlatConcat(Lines(groups), pending);
    }

    lemma WholeBuffered(line: string)
      requires Whole()
      ensures Buffered(line).Whole()
    {
      assert Lines(groups) + (pending + [line]) == Lines(groups) + pending + [line];
    }

    lemma WholeOwnChunk(line: string)
      requires Whole() && pending == []
      ensures OwnChunk(line).Whole()
    {
      LinesAppend(groups, [line]);
    }

    lemma WholeFlushed()
      requires Whole()
      ensures Flushed().Whole()
    {
      LinesAppend(groups, pending);
    }

    lemma FitBuffered(accepted: seq<string>, buf: string, size: nat, line: string)
      requires Fit(accepted, buf, size) && line != "" && |buf| + |line| <= size
      ensures Buffered(line).Fit(accepted, buf + line, size)
    {
      KeptBoth(Lines(groups) + pending, submitted, line);
      assert Lines(groups) + (pending + [line]) == Lines(groups) + pending + [line];
      FlatAppend(submitted, line);
      FlatAppend(pending, line);
    }

    lemma FitOwnChunk(accepted: seq<string>, size: nat, line: string)
      requires Fit(accepted, "", size) && |line| > size
      ensures OwnChunk(line).Fit(accepted + [line], "", size)
    {
      EmptyMeansNone(pending);
      FlatAppend(submitted, line);
      FlatOne(line);
      OneMoreFramed(accepted, groups, size, line, [line]);
      LinesAppend(groups, [line]);
      FlatAppend(accepted, line);
      assert Lines(groups) + pending == Lines(groups);
      KeptBoth(Lines(groups), submitted, line);
      assert Lines(groups) + [line] + pending == Lines(groups) + [line];
    }

    lemma FitLost(accepted: seq<string>, buf: string, size: nat, line: string)
      requires Fit(accepted, buf, size)
      ensures Lost(line).Fit(accepted, buf, size)
    {
      KeptBoth(Lines(groups) + pending, submitted, line);
      FlatAppend(submitted, line);
    }

    lemma FitFlushed(accepted: seq<string>, buf: string, size: nat)
      requires Fit(accepted, buf, size)
      ensures Flushed().Fit(if buf == "" then accepted else accepted + [buf], "", size)
    {
      if buf == "" {
        EmptyMeansNone(pending);
      } else {
        OneMoreFramed(accepted, groups, size, buf, pending);
        LinesAppend(groups, pending);
        FlatAppend(accepted, buf);
        assert Lines(groups) + pending + [] == Lines(groups) + pending;
      }
    }

    lemma FitDropped(accepted: seq<string>, buf: string, size: nat)
      requires Fit(accepted, buf, size)
      ensures Dropped().Fit(accepted, "", size)
    {
      KeptLess(Lines(groups), pending, submitted);
      assert Lines(groups) + [] == Lines(groups);
    }

    lemma FitGivenUp(accepted: seq<string>, buf: string, size: nat, rest: nat)
      requires Fit(accepted, buf, size)
      ensures GivenUp(rest).Fit(accepted, "", size)
    {
      KeptLess(Lines(groups), pending, submitted);
      assert Lines(groups) + [] == Lines(groups);
    }
  }

  lemma Added(total: nat, n: nat)
    ensures Plus(total % MODULUS, n % MODULUS) == (total + n) % MODULUS
  {
  }

  class NetSink {
    const bufWriter: BufWriter
    var droppedBytes: Word
    ghost var books: Books

    ghost predicate Valid()
      reads this, bufWriter, bufWriter.out
    {
      && !bufWriter.failed && bufWriter.size > 0 && bufWriter.out.Valid() && droppedBytes == books.dropped % MODULUS
      && books.Fit(bufWriter.out.accepted, bufWriter.buf, bufWriter.size)
    }

    /** outc has no room. */
    ghost predicate Full()
      reads this, bufWriter, bufWriter.out
    {
      |bufWriter.out.queue| == bufWriter.out.capacity
    }

    constructor (out: Channel, bufSize: nat)
      requires bufSize > 0 && out.accepted == [] && out.Valid()
      ensures Valid() && fresh(bufWriter) && bufWriter.out == out && bufWriter.size == bufSize
      ensures books == Books([], [], [], 0, 0, 0)
    {
      bufWriter := new BufWriter(out, bufSize);
      droppedBytes, books := 0, Books([], [], [], 0, 0, 0);
    }

    /** handleFlushErrorSize: count the bytes, forget the buffer's contents and its error. */
    method HandleFlushErrorSize(n: nat)
      modifies this`droppedBytes, bufWriter`buf, bufWriter`failed
      ensures droppedBytes == Plus(old(droppedBytes), n % MODULUS)
      ensures bufWriter.buf == "" && !bufWriter.failed
    {
      droppedBytes := Plus(droppedBytes, n % MODULUS);
      bufWriter.Reset();
    }

    /** handleFlushError: what is buffered is what is dropped. */
    method HandleFlushError()
      modifies this`droppedBytes, bufWriter`buf, bufWriter`failed
      ensures droppedBytes == Plus(old(droppedBytes), old(|bufWriter.buf|) % MODULUS)
      ensures bufWriter.buf == "" && !bufWriter.failed
    {
      HandleFlushErrorSize(|bufWriter.buf|);
    }

    /** flush: the lines buffered become a chunk, or are dropped and counted. */
    method Flush() returns (ok: bool)
      requires Valid()
      modifies this`droppedBytes, this`books, bufWriter`buf, bufWriter`failed, bufWriter.out
      ensures Valid() && bufWriter.buf == "" && books == if ok then old(books).Flushed() else old(books).Dropped()
      ensures ok || (old(Full()) && bufWriter.out.queue == old(bufWriter.out.queue))
      ensures old(bufWriter.out.accepted) <= bufWriter.out.accepted
      ensures ok && old(books.Whole()) ==> books.Whole()
    {
      ghost var accepted, buf, size := bufWriter.out.accepted, bufWriter.buf, bufWriter.size;
      Added(books.dropped, |buf|);
      ok := bufWriter.Flush();
      if ok {
        books.FitFlushed(accepted, buf, size);
        if books.Whole() {
          books.WholeFlushed();
        }
        books := books.Flushed();
      } else {
        assert bufWriter.buf == buf && bufWriter.out.accepted == accepted;
        HandleFlushError();
        books.FitDropped(accepted, buf, size);
        books := books.Dropped();
      }
    }

    /** The write that ends writeBuffer: the line fits, or the buffer is empty. */
    method TakeLine(line: string)
      requires Valid() && line != "" && (|line| <= bufWriter.Available() || bufWriter.buf == "")
      modifies this`droppedBytes, this`books, bufWriter`buf, bufWriter`failed, bufWriter.out
      ensures Valid() && old(bufWriter.out.accepted) <= bufWriter.out.accepted
      ensures |line| <= old(bufWriter.Available()) ==> books == old(books).Buffered(line)
      ensures
        |line| > old(bufWriter.Available()) ==>
          books == old(books).OwnChunk(line) || (books == old(books).Lost(line) && Full())
      ensures |bufWriter.out.accepted| < bufWriter.out.capacity && old(books.Whole()) ==> books.Whole()
    {
      ghost var accepted, buf, size := bufWriter.out.accepted, bufWriter.buf, bufWriter.size;
      Added(books.dropped, 0);
      var ok := bufWriter.Write(line);
      if !ok {
        HandleFlushError();
      }
      if |line| <= size - |buf| {
        books.FitBuffered(accepted, buf, size, line);
        if books.Whole() {
          books.WholeBuffered(line);
        }
        books := books.Buffered(line);
      } else if ok {
        books.FitOwnChunk(accepted, size, line);
        EmptyMeansNone(books.pending);
        if books.Whole() {
          books.WholeOwnChunk(line);
        }
        books := books.OwnChunk(line);
      } else {
        assert bufWriter.out.accepted == accepted;
        books.FitLost(accepted, buf, size, line);
        books := books.Lost(line);
      }
    }

    /**
     writeBuffer: the line goes into the buffer, which is flushed first when there is no room. A line longer
     than the whole buffer becomes a chunk of its own or, when the channel is full, is lost uncounted.
     */
    method WriteBuffer(line: string)
      requires Valid() && line != ""
      modifies this`droppedBytes, this`books, bufWriter`buf, bufWriter`failed, bufWriter.out
      ensures Valid()
      ensures |line| <= old(bufWriter.Available()) ==> books == old(books).Buffered(line)
      ensures
        old(bufWriter.Available()) < |line| <= bufWriter.size ==>
          || books == old(books).Flushed().Buffered(line)
          || (books == old(books).Dropped().Buffered(line) && old(Full()))
      ensures
        |line| > bufWriter.size ==>
          exists k ::
            && (k == old(books).Flushed() || (k == old(books).Dropped() && old(Full())))
            && (books == k.OwnChunk(line) || (books == k.Lost(line) && Full()))
      ensures old(bufWriter.out.accepted) <= bufWriter.out.accepted
      ensures |bufWriter.out.accepted| < bufWriter.out.capacity && old(books.Whole()) ==> books.Whole()
    {
      if bufWriter.Available() < |line| {
        var flushed := Flush();
      }
      TakeLine(line);
    }

    /** The receiver gives up on a chunk after its retry: its rest is counted as dropped, the buffer is reset. */
    method RetryFailed(rest: nat)
      requires Valid()
      modifies this`droppedBytes, this`books, bufWriter`buf, bufWriter`failed
      ensures Valid() && books == old(books).GivenUp(rest)
    {
      Added(books.dropped, rest);
      books.FitGivenUp(bufWriter.out.accepted, bufWriter.buf, bufWriter.size, rest);
      HandleFlushErrorSize(rest);
      books := books.GivenUp(rest);
    }
  }

  /** What happens to the producing side: writeBuffer, Flush, or the receiver giving up on a chunk. */
  datatype Op = Write(line: string) | Flush | Abandon(rest: nat)

  /** The lines a run submits. */
  function Submitted(ops: seq<Op>): seq<string> {
    if ops == [] then []
    else Submitted(ops[..|ops| - 1]) + if ops[|ops| - 1].Write? then [ops[|ops| - 1].line] else []
  }

  /** Every line fits the buffer, and no chunk is given up after a retry. */
  predicate Accountable(ops: seq<Op>, bufSize: nat) {
    forall op :: op in ops ==> op.Flush? || (op.Write? && |op.line| <= bufSize)
  }

  /** No chunk is given up after a retry. */
  predicate NoneAbandoned(ops: seq<Op>) {
    forall op :: op in ops ==> !op.Abandon?
  }

  lemma OneMore(ops: seq<Op>, op: Op, bufSize: nat)
    ensures Submitted(ops + [op]) == Submitted(ops) + if op.Write? then [op.line] else []
    ensures
      Accountable(ops + [op], bufSize) <==>
        Accountable(ops, bufSize) && (op.Flush? || (op.Write? && |op.line| <= bufSize))
    ensures NoneAbandoned(ops + [op]) <==> NoneAbandoned(ops) && !op.Abandon?
  {
    var longer := ops + [op];
    assert longer[..|ops|] == ops && longer[|ops|] == op;
    assert forall x :: x in longer <==> x in ops || x == op;
  }

  /** The sink after the operations `done`. */
  ghost predicate After(sink: NetSink, done: seq<Op>)
    reads sink, sink.bufWriter, sink.bufWriter.out
  {
    && sink.Valid() && sink.books.submitted == Submitted(done)
    && (Accountable(done, sink.bufWriter.size) ==> sink.books.uncounted == sink.books.recounted == 0)
    && (|sink.bufWriter.out.accepted| < sink.bufWriter.out.capacity && NoneAbandoned(done) ==> sink.books.Whole())
  }

  method Perform(sink: NetSink, op: Op, ghost done: seq<Op>)
    requires After(sink, done) && (op.Write? ==> op.line != "")
    modifies sink, sink.bufWriter, sink.bufWriter.out
    ensures After(sink, done + [op])
  {
    OneMore(done, op, sink.bufWriter.size);
    match op {
      case Write(line) => sink.WriteBuffer(line);
      case Flush => var ok := sink.Flush();
      case Abandon(rest) => sink.RetryFailed(rest);
    }
  }

  /** Every operation in turn. */
  method PerformAll(sink: NetSink, ops: seq<Op>)
    requires After(sink, []) && forall op :: op in ops && op.Write? ==> op.line != ""
    modifies sink, sink.bufWriter, sink.bufWriter.out
    ensures After(sink, ops)
  {
    for i := 0 to |ops|
      invariant After(sink, ops[..i])
    {
      assert ops[..i + 1] == ops[..i] + [ops[i]];
      Perform(sink, ops[i], ops[..i]);
    }
    assert ops[..|ops|] == ops;
  }

  /**
   Every run of the producing side: each chunk on outc is framed, what went out and what is still buffered
   are the submitted lines in order with some left out, and when every line fits the buffer and no retry
   fails, the bytes submitted are those sent, those buffered and droppedBytes (which wraps at 2^64). While outc
   was given fewer chunks than it holds, and none was given up, nothing is lost, whatever the receiver does.
   */
  method Produce(ops: seq<Op>, bufSize: nat, capacity: nat)
    returns (chunks: seq<string>, buffered: string, dropped: Word,
             ghost lines: seq<seq<string>>, ghost pending: seq<string>)
    requires bufSize > 0 && forall op :: op in ops && op.Write? ==> op.line != ""
    ensures AllFramed(chunks, lines, bufSize)
    ensures buffered == Flat(pending) && |buffered| <= bufSize && Kept(Lines(lines) + pending, Submitted(ops))
    ensures Accountable(ops, bufSize) ==> Accounted(Submitted(ops), chunks, buffered, dropped)
    ensures
      |chunks| < capacity && NoneAbandoned(ops) ==>
        dropped == 0 && Lines(lines) + pending == Submitted(ops) && Flat(chunks) + buffered == Flat(Submitted(ops))
  {
    var out := new Channel(capacity);
    var sink := new NetSink(out, bufSize);
    PerformAll(sink, ops);
    sink.books.BytesCounted(out.accepted, sink.bufWriter.buf, bufSize);
    sink.books.BytesWhole(out.accepted, sink.bufWriter.buf, bufSize);
    chunks, buffered, dropped := out.accepted, sink.bufWriter.buf, sink.droppedBytes;
    lines, pending := sink.books.groups, sink.books.pending;
  }
}
