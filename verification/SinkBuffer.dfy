/**
 The writing side of netSink: stat lines go into a bufio.Writer, whose chunks go to the channel outc.
 The receiving goroutine may take chunks off the channel at any time.
 */
module SinkBuffer {
  function Flat(lines: seq<string>): string {
    if lines == [] then "" else Flat(lines[..|lines| - 1]) + lines[|lines| - 1]
  }

  lemma {:induction false} FlatConcat(a: seq<string>, b: seq<string>)
    ensures Flat(a + b) == Flat(a) + Flat(b)
  {
    if b == [] {
      assert a + b == a;
    } else {
      assert (a + b)[..|a + b| - 1] == a + b[..|b| - 1];
      FlatConcat(a, b[..|b| - 1]);
    }
  }

  lemma FlatAppend(a: seq<string>, x: string)
    ensures Flat(a + [x]) == Flat(a) + x
  {
    assert (a + [x])[..|a|] == a;
  }

  /** The channel outc; `accepted` is the history of all chunks ever put on it. */
  class Channel {
    var queue: seq<string>
    const capacity: nat
    var accepted: seq<string>

    /** No more chunks wait than were put on the channel, and no more than it holds. */
    ghost predicate Valid()
      reads this
    {
      |queue| <= |accepted| && |queue| <= capacity
    }

    constructor (capacity: nat)
      ensures Valid() && queue == accepted == [] && this.capacity == capacity
    {
      this.capacity, queue, accepted := capacity, [], [];
    }

    /**
     sinkWriter.Write: a send that does not wait; any number of chunks may have been received before it. The
     chunk is refused only when the channel is full and nothing was received.
     */
    method Write(p: string) returns (n: nat, ok: bool)
      requires Valid()
      modifies this
      ensures Valid()
      ensures if ok then n == |p| && accepted == old(accepted) + [p] else n == 0 && accepted == old(accepted)
      ensures if ok then queue != [] && queue[|queue| - 1] == p else queue == old(queue) && |queue| == capacity
      ensures old(|queue|) < capacity ==> ok
    {
      var received: nat :| received <= |queue|;
      queue := queue[received..];
      if |queue| < capacity {
        queue := queue + [p];
        accepted := accepted + [p];
        return |p|, true;
      }
      return 0, false;
    }
  }

  /** The bytes sent in chunks, those buffered and those left make up all. */
  predicate Carried(all: string, sent: seq<string>, buf: string, rest: string) {
    all == Flat(sent) + buf + rest
  }

  lemma CarriedOver(all: string, sent: seq<string>, buf: string, rest: string, n: nat)
    requires Carried(all, sent, buf, rest) && n <= |rest|
    ensures Carried(all, sent + [buf + rest[..n]], "", rest[n..])
  {
    FlatAppend(sent, buf + rest[..n]);
    assert rest == rest[..n] + rest[n..];
  }

  /** bufio.Writer over the channel: the bytes buffered and the sticky error. */
  class BufWriter {
    var buf: string
    var failed: bool
    const size: nat
    const out: Channel

    constructor (out: Channel, size: nat)
      ensures this.out == out && this.size == size && buf == "" && !failed
    {
      this.out, this.size, buf, failed := out, size, "", false;
    }

    function Available(): int
      reads this`buf
    {
      size - |buf|
    }

    method Flush() returns (ok: bool)
      requires |buf| <= size && !failed && out.Valid()
      modifies this`buf, this`failed, out
      ensures ok == !failed && out.Valid()
      ensures if ok then buf == "" else out.queue == old(out.queue) && |out.queue| == out.capacity
      ensures
        if old(buf) == "" then ok && buf == "" && out.accepted == old(out.accepted)
        else if ok then buf == "" && out.accepted == old(out.accepted) + [old(buf)]
        else buf == old(buf) && out.accepted == old(out.accepted)
    {
      if |buf| == 0 {
        return true;
      }
      var n, sent := out.Write(buf);
      if !sent {
        buf := buf[n..];
        failed := true;
        return false;
      }
      buf := "";
      return true;
    }

    /**
     One turn of Write's loop, when p does not fit: an empty buffer is bypassed, a used one topped up and flushed.
     `all` is what Write was to write and `sent` the chunks it has sent.
     */
    method Spill(p: string, ghost all: string, ghost sent: seq<string>) returns (rest: string, ghost more: seq<string>)
      requires |buf| <= size && !failed && out.Valid() && |p| > Available() && Carried(all, sent, buf, p)
      modifies this`buf, this`failed, out
      ensures out.Valid() && |buf| <= size && |rest| <= |p| && out.accepted == old(out.accepted) + more
      ensures failed ==> more == [] && out.queue == old(out.queue) && |out.queue| == out.capacity
      ensures !failed ==> buf == "" && |more| == 1 && Carried(all, sent + more, buf, rest)
      ensures |rest| < |p| || |buf| < |old(buf)| || (failed && buf == old(buf))
      ensures old(buf) == "" ==> buf == "" && if failed then rest == p else rest == "" && more == [p]
    {
      ghost var was := buf;
      if |buf| == 0 {
        var n, wrote := out.Write(p);
        failed := !wrote;
        CarriedOver(all, sent, was, p, |p|);
        assert p[..|p|] == p && "" + p == p;
        rest := p[n..];
      } else {
        var n := Available();
        CarriedOver(all, sent, was, p, n);
        buf := buf + p[..n];
        rest := p[n..];
        var flushed := Flush();
      }
      more := if failed then [] else [was + p[..|p| - |rest|]];
    }

    /**
     Write, as bufio has it: while p does not fit, an empty buffer is bypassed and a used one is topped up
     and flushed. Without an error every byte ends up on the channel or in the buffer, in order.
     */
    method Write(p: string) returns (ok: bool)
      requires |buf| <= size && !failed && size > 0 && out.Valid()
      modifies this`buf, this`failed, out
      ensures ok == !failed && |buf| <= size && old(out.accepted) <= out.accepted && out.Valid()
      ensures !ok ==> |out.queue| == out.capacity
      ensures ok ==> old(buf) + p == Flat(out.accepted[|old(out.accepted)|..]) + buf
      ensures |p| <= old(Available()) ==> ok && buf == old(buf) + p && out.accepted == old(out.accepted)
      ensures
        |p| > old(Available()) && old(buf) == "" ==>
          && buf == "" && out.accepted == old(out.accepted) + (if ok then [p] else [])
          && (ok || out.queue == old(out.queue))
    {
      ghost var sent: seq<string> := [];
      var rest := p;
      while |rest| > Available() && !failed
        invariant |buf| <= size && |rest| <= |p| && out.accepted == old(out.accepted) + sent && out.Valid()
        invariant failed ==> |out.queue| == out.capacity
        invariant !failed ==> Carried(old(buf) + p, sent, buf, rest)
        invariant |p| <= old(Available()) ==> !failed && rest == p && buf == old(buf) && sent == []
        invariant
          |p| > old(Available()) && old(buf) == "" ==>
            && buf == ""
            && if failed || rest == p then sent == [] && out.queue == old(out.queue) else rest == "" && sent == [p]
        decreases |rest|, |buf|, !failed
      {
        ghost var more;
        rest, more := Spill(rest, old(buf) + p, sent);
        sent := sent + more;
      }
      if failed {
        return false;
      }
      buf := buf + rest;
      return true;
    }

    method Reset()
      modifies this`buf, this`failed
      ensures buf == "" && !failed
    {
      buf, failed := "", false;
    }
  }
}
