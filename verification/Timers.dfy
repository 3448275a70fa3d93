/**
 Timers, run by one goroutine. A timer hands each value to the sink itself, so pruning loses none; but a
 write does not put a pruned timer back into the store's map, as the documentation says it does.
 */
module Timers {
  import opened Word64

  /** What FlushTimer was given: values are only passed on. */
  datatype Sent = Sent(name: string, value: real)

  class Sink {
    var sent: seq<Sent>

    constructor ()
      ensures sent == []
    {
      sent := [];
    }

    method FlushTimer(name: string, value: real)
      modifies this
      ensures sent == old(sent) + [Sent(name, value)]
    {
      sent := sent + [Sent(name, value)];
    }
  }

  /** `zeros` is a history variable: the visits of Flush in a row that found the timer unused. */
  class Timer {
    const name: string
    const sink: Sink
    var active: bool
    var idleFlushes: Uint32
    ghost var zeros: nat

    constructor (name: string, sink: Sink)
      ensures this.name == name && this.sink == sink && !active && idleFlushes == zeros == 0
    {
      this.name, this.sink, active, idleFlushes, zeros := name, sink, false, 0, 0;
    }

    method AddValue(value: real)
      modifies this`active, sink
      ensures active && sink.sent == old(sink.sent) + [Sent(name, value)]
    {
      active := true;
      sink.FlushTimer(name, value);
    }
  }

  class TimerStore {
    var timers: map<string, Timer>
    const pruneAfterFlushes: Uint32
    const sink: Sink
    ghost var all: set<Timer>

    ghost predicate InMap(t: Timer)
      reads this
    {
      t.name in timers && timers[t.name] == t
    }

    /** A timer outside the map went after at least pruneAfterFlushes visits in a row that found it unused. */
    ghost predicate Valid()
      reads this, all
    {
      && (forall n :: n in timers ==> timers[n] in all && timers[n].name == n)
      && forall t :: t in all ==>
        t.sink == sink && t.idleFlushes <= t.zeros && (InMap(t) || t.zeros >= pruneAfterFlushes > 0)
    }

    /** A visit of Flush now would leave t in the map. */
    ghost predicate Stays(t: Timer)
      reads t
    {
      t.active || pruneAfterFlushes == 0 || Next(t.idleFlushes) < pruneAfterFlushes
    }

    /** Unused since the last Flush, and not for too long. */
    ghost predicate Young(t: Timer)
      reads t
    {
      !t.active && (pruneAfterFlushes == 0 || t.idleFlushes < pruneAfterFlushes)
    }

    constructor (pruneAfterFlushes: Uint32, sink: Sink)
      ensures Valid() && all == {} && timers == map[]
      ensures this.pruneAfterFlushes == pruneAfterFlushes && this.sink == sink
    {
      this.pruneAfterFlushes, this.sink, timers, all := pruneAfterFlushes, sink, map[], {};
    }

    /** newTimer: the timer in the map under the name, or a new one. */
    method NewTimer(serializedName: string) returns (t: Timer)
      requires Valid()
      modifies this
      ensures Valid() && t in all && t.name == serializedName && old(all) <= all && fresh(all - old(all))
      ensures timers == old(timers)[serializedName := t]
      ensures
        if serializedName in old(timers) then t == old(timers)[serializedName]
        else fresh(t) && !t.active && t.idleFlushes == 0
    {
      if serializedName in timers {
        t := timers[serializedName];
        assert timers == timers[serializedName := t];
        return;
      }
      t := new Timer(serializedName, sink);
      all := all + {t};
      timers := timers[serializedName := t];
    }

    /** The idleFlushes of a timer after a visit of Flush. */
    ghost function Aged(t: Timer): Uint32
      reads t
    {
      if t.active then 0 else if pruneAfterFlushes == 0 then t.idleFlushes else Next(t.idleFlushes)
    }

    /** Range's callback on the timers. */
    method Visit(key: string)
      requires Valid() && key in timers
      modifies this`timers, timers[key]
      ensures Valid()
      ensures !old(timers)[key].active && old(timers)[key].idleFlushes == old(Aged(timers[key]))
      ensures timers == if old(Stays(timers[key])) then old(timers) else old(timers) - {key}
      ensures old(Stays(timers[key])) ==> Young(old(timers)[key])
    {
      var t := timers[key];
      if t.active {
        t.active, t.idleFlushes, t.zeros := false, 0, 0;
        return;
      }
      t.zeros := t.zeros + 1;
      if pruneAfterFlushes == 0 {
        return;
      }
      t.idleFlushes := Next(t.idleFlushes);
      if t.idleFlushes < pruneAfterFlushes {
        return;
      }
      timers := timers - {key};
    }

    /** What Flush is to do with the timer under n, which it has yet to visit. */
    ghost predicate Before(n: string, t: Timer, stays: bool, aged: Uint32)
      reads this, t
    {
      n in timers && timers[n] == t && Stays(t) == stays && Aged(t) == aged
    }

    /** It has visited it. */
    ghost predicate After(n: string, t: Timer, stays: bool, aged: Uint32)
      reads this, t
    {
      t.idleFlushes == aged && (if stays then n in timers && timers[n] == t && Young(t) else n !in timers)
    }

    /** The keys in todo have yet to be visited. */
    ghost predicate Swept(was: map<string, Timer>, stay: set<string>, aged: map<string, Uint32>, todo: set<string>)
      requires was.Keys <= aged.Keys
      reads this, all
    {
      && Valid() && todo <= was.Keys && timers.Keys <= was.Keys
      && forall n :: n in was ==>
        && was[n] in all && was[n].name == n
        && if n in todo then Before(n, was[n], n in stay, aged[n]) else After(n, was[n], n in stay, aged[n])
    }

    method VisitNext(key: string, ghost was: map<string, Timer>, ghost stay: set<string>,
                     ghost aged: map<string, Uint32>, ghost todo: set<string>)
      requires was.Keys <= aged.Keys && Swept(was, stay, aged, todo) && key in todo
      modifies this`timers, all
      ensures Swept(was, stay, aged, todo - {key})
    {
      assert Before(key, was[key], key in stay, aged[key]);
      Visit(key);
      assert After(key, was[key], key in stay, aged[key]);
    }

    /**
     The part of Flush about timers: exactly those unused for too long go, idleFlushes counts the visits that
     found a timer unused, and the sink is left alone.
     */
    method Flush()
      requires Valid()
      modifies this`timers, all
      ensures Valid()
      ensures forall n :: n in timers <==> n in old(timers) && old(Stays(timers[n]))
      ensures forall n :: n in timers ==> timers[n] == old(timers)[n] && Young(timers[n])
      ensures forall n :: n in old(timers) ==> old(timers)[n].idleFlushes == old(Aged(timers[n]))
    {
      ghost var was, stay := timers, set n | n in timers && Stays(timers[n]);
      ghost var aged := map n | n in timers :: Aged(timers[n]);
      var todo := timers.Keys;
      while todo != {}
        invariant Swept(was, stay, aged, todo)
        decreases todo
      {
        var key :| key in todo;
        VisitNext(key, was, stay, aged, todo);
        todo := todo - {key};
      }
    }
  }

  /** One call of the program: NewTimer, AddValue through the k-th handle returned so far, or Flush. */
  datatype Op = Lookup(name: string) | Write(handle: nat, value: real) | Report

  /** The names of the handles returned. */
  function Names(ops: seq<Op>): seq<string> {
    if ops == [] then []
    else Names(ops[..|ops| - 1]) + if ops[|ops| - 1].Lookup? then [ops[|ops| - 1].name] else []
  }

  /** All that was written, in order, under the names of the handles. */
  function Written(ops: seq<Op>): seq<Sent> {
    if ops == [] then []
    else
      var before, op := ops[..|ops| - 1], ops[|ops| - 1];
      Written(before)
      + if op.Write? && op.handle < |Names(before)| then [Sent(Names(before)[op.handle], op.value)] else []
  }

  ghost predicate Agrees(store: TimerStore, handles: seq<Timer>, ops: seq<Op>)
    reads store, store.all, store.sink
  {
    && store.Valid() && store.sink.sent == Written(ops) && |handles| == |Names(ops)|
    && forall k :: 0 <= k < |handles| ==> handles[k] in store.all && handles[k].name == Names(ops)[k]
  }

  method Perform(store: TimerStore, handles: seq<Timer>, op: Op, ghost done: seq<Op>) returns (now: seq<Timer>)
    requires Agrees(store, handles, done)
    modifies store, store.all, store.sink
    ensures Agrees(store, now, done + [op]) && fresh(store.all - old(store.all))
    ensures handles <= now && |now| == |handles| + if op.Lookup? then 1 else 0
    ensures forall k :: 0 <= k < |handles| && store.InMap(handles[k]) ==> old(store.InMap(handles[k]))
    ensures op.Write? ==> store.timers == old(store.timers)
  {
    assert (done + [op])[..|done|] == done;
    now := handles;
    match op {
      case Lookup(n) =>
        var t := store.NewTimer(n);
        now := handles + [t];
      case Write(h, v) =>
        if h < |handles| {
          handles[h].AddValue(v);
        }
      case Report => store.Flush();
    }
  }

  method Advance(store: TimerStore, handles: seq<Timer>, ghost done: seq<Op>, ops: seq<Op>) returns (now: seq<Timer>)
    requires Agrees(store, handles, done)
    modifies store, store.all, store.sink
    ensures Agrees(store, now, done + ops) && fresh(store.all - old(store.all)) && handles <= now
    ensures forall k :: 0 <= k < |handles| && store.InMap(handles[k]) ==> old(store.InMap(handles[k]))
    ensures (forall op :: op in ops ==> op.Write?) ==> store.timers == old(store.timers) && now == handles
  {
    now := handles;
    assert done + ops[..0] == done;
    for i := 0 to |ops|
      invariant Agrees(store, now, done + ops[..i]) && fresh(store.all - old(store.all)) && handles <= now
      invariant forall k :: 0 <= k < |handles| && store.InMap(handles[k]) ==> old(store.InMap(handles[k]))
      invariant (forall op :: op in ops ==> op.Write?) ==> store.timers == old(store.timers) && now == handles
    {
      assert done + ops[..i + 1] == done + ops[..i] + [ops[i]] && ops[i] in ops;
      now := Perform(store, now, ops[i], done + ops[..i]);
    }
    assert ops[..|ops|] == ops;
  }

  /** Which handles are the timers the map has under their names. */
  method Attached(store: TimerStore, handles: seq<Timer>) returns (r: seq<bool>)
    ensures |r| == |handles| && forall k :: 0 <= k < |r| ==> r[k] == store.InMap(handles[k])
  {
    r := [];
    for i := 0 to |handles|
      invariant |r| == i && forall k :: 0 <= k < i ==> r[k] == store.InMap(handles[k])
    {
      var t := handles[i];
      r := r + [t.name in store.timers && store.timers[t.name] == t];
    }
  }

  /**
   Whatever is pruned, the sink gets every value written, in order, under its timer's name. A timer once out of
   the map never comes back, so after a write it is in the map if and only if it was before.
   */
  method Play(ops: seq<Op>, more: seq<Op>, pruneAfterFlushes: Uint32)
    returns (sent: seq<Sent>, before: seq<bool>, after: seq<bool>)
    ensures sent == Written(ops + more) && |before| == |Names(ops)| && |after| == |Names(ops + more)|
    ensures |before| <= |after| && forall k :: 0 <= k < |before| && after[k] ==> before[k]
    ensures (forall op :: op in more ==> op.Write?) ==> after == before
  {
    var sink := new Sink();
    var store := new TimerStore(pruneAfterFlushes, sink);
    assert [] + ops == ops;
    var handles := Advance(store, [], [], ops);
    before := Attached(store, handles);
    var now := Advance(store, handles, ops, more);
    after := Attached(store, now);
    sent := sink.sent;
  }

  /** A timer that is never used is in the map until the Flush number pruneAfterFlushes, and out of it from then on. */
  method UnusedGoes(pruneAfterFlushes: Uint32, flushes: nat) returns (attached: bool)
    requires pruneAfterFlushes > 0
    ensures attached <==> flushes < pruneAfterFlushes
  {
    var sink := new Sink();
    var store := new TimerStore(pruneAfterFlushes, sink);
    var t := store.NewTimer("t");
    for i := 0 to flushes
      invariant store.Valid() && fresh(store.all) && fresh(store) && t in store.all
      invariant store.pruneAfterFlushes == pruneAfterFlushes
      invariant
        if i < pruneAfterFlushes then store.timers == map["t" := t] && !t.active && t.idleFlushes == i
        else store.timers == map[]
    {
      store.Flush();
    }
    attached := "t" in store.timers;
  }

  /** With a window of one flush: a timer is made, a Flush prunes it, a write is sent but does not reattach it. */
  method PrunedStaysOut(value: real) returns (sent: seq<Sent>, attached: bool)
    ensures sent == [Sent("t", value)] && !attached
  {
    var sink := new Sink();
    var store := new TimerStore(1, sink);
    var t := store.NewTimer("t");
    store.Flush();
    t.AddValue(value);
    attached := "t" in store.timers;
    sent := sink.sent;
  }
}
