/**
 Pruning is invisible to the sink: for every sequential run of lookups, Adds through any handle ever
 returned, and Flushes, a store hands its sink at each Flush the per-name values that a ledger without
 counters, handles or pruning would hand over.
 */
module PruningInvisible {
  import opened Word64
  import opened Sums
  import opened SequentialStore

  /** One call of the program: NewCounter, Add through the k-th handle returned so far, or Flush. */
  datatype Op = Lookup(name: string) | Write(handle: nat, delta: Word) | Report

  /** The names looked up, the amounts owed by name (zero amounts left out) and what each Flush sent. */
  datatype Ledger = Ledger(names: seq<string>, owed: map<string, Word>, sent: seq<map<string, Word>>)

  function Owed(owed: map<string, Word>, n: string): Word {
    if n in owed then owed[n] else 0
  }

  function Credit(owed: map<string, Word>, n: string, d: Word): map<string, Word> {
    var v := Plus(Owed(owed, n), d);
    if v == 0 then owed - {n} else owed[n := v]
  }

  function Enter(l: Ledger, op: Op): Ledger {
    match op
    case Lookup(n) => l.(names := l.names + [n])
    case Write(h, d) => if h < |l.names| then l.(owed := Credit(l.owed, l.names[h], d)) else l
    case Report => l.(owed := map[], sent := l.sent + [l.owed])
  }

  function Book(ops: seq<Op>): Ledger {
    if ops == [] then Ledger([], map[], []) else Enter(Book(ops[..|ops| - 1]), ops[|ops| - 1])
  }

  /** Two ledgers of owed amounts that agree on every name are the same. */
  lemma SameOwed(a: map<string, Word>, b: map<string, Word>)
    requires forall n :: n in a ==> a[n] != 0
    requires forall n :: n in b ==> b[n] != 0
    requires forall n :: Owed(a, n) == Owed(b, n)
    ensures a == b
  {
    forall n
      ensures n in a <==> n in b
    {
      assert Owed(a, n) == Owed(b, n);
    }
    forall n | n in a
      ensures a[n] == b[n]
    {
      assert Owed(a, n) == Owed(b, n);
    }
  }

  /** The store stands where the ledger says: same handles, same amounts owed, same reports. */
  ghost predicate Agrees(store: StatStore, handles: seq<Counter>, l: Ledger)
    reads store, store.all, store.sink
  {
    && store.Valid() && store.sink.collected == map[]
    && |handles| == |l.names|
    && (forall k :: 0 <= k < |handles| ==> handles[k] in store.all && handles[k].key == l.names[k])
    && store.Unreported() == l.owed && store.sink.sent == l.sent
  }

  method Enroll(store: StatStore, handles: seq<Counter>, name: string, ghost l: Ledger) returns (now: seq<Counter>)
    requires Agrees(store, handles, l)
    modifies store
    ensures Agrees(store, now, Enter(l, Lookup(name))) && fresh(store.all - old(store.all))
  {
    var c := store.NewCounter(name);
    now := handles + [c];
    SameOwed(store.Unreported(), l.owed);
  }

  method WriteTo(store: StatStore, handles: seq<Counter>, h: nat, delta: Word, ghost l: Ledger)
    requires Agrees(store, handles, l)
    modifies store, store.all
    ensures Agrees(store, handles, Enter(l, Write(h, delta))) && store.all == old(store.all)
  {
    if h < |handles| {
      handles[h].Add(delta);
      SameOwed(store.Unreported(), Credit(l.owed, l.names[h], delta));
    }
  }

  method FlushAll(store: StatStore, handles: seq<Counter>, ghost l: Ledger)
    requires Agrees(store, handles, l)
    modifies store, store.all, store.sink
    ensures Agrees(store, handles, Enter(l, Report)) && store.all == old(store.all)
  {
    store.Flush();
    SameOwed(store.Unreported(), map[]);
  }

  method Perform(store: StatStore, handles: seq<Counter>, op: Op, ghost l: Ledger) returns (now: seq<Counter>)
    requires Agrees(store, handles, l)
    modifies store, store.all, store.sink
    ensures Agrees(store, now, Enter(l, op)) && fresh(store.all - old(store.all))
  {
    now := handles;
    match op {
      case Lookup(n) => now := Enroll(store, handles, n, l);
      case Write(h, d) => WriteTo(store, handles, h, d, l);
      case Report => FlushAll(store, handles, l);
    }
  }

  /** Every run on a real store agrees with the ledger, whatever its pruneAfterFlushes. */
  method Play(ops: seq<Op>, pruneAfterFlushes: Uint32) returns (sent: seq<map<string, Word>>)
    ensures sent == Book(ops).sent
  {
    var sink := new Sink();
    var store := new StatStore(pruneAfterFlushes, sink);
    var handles: seq<Counter> := [];
    var i := 0;
    while i < |ops|
      invariant i <= |ops| && fresh(sink) && fresh(store) && fresh(store.all) && store.sink == sink
      invariant Agrees(store, handles, Book(ops[..i]))
    {
      assert ops[..i + 1][..i] == ops[..i] && ops[..i + 1][i] == ops[i];
      handles := Perform(store, handles, ops[i], Book(ops[..i]));
      i := i + 1;
    }
    assert ops[..|ops|] == ops;
    sent := sink.sent;
  }

  /** A store that prunes and one that never does hand over the same per-name values at each Flush. */
  method PrunedAndNot(ops: seq<Op>, pruneAfterFlushes: Uint32)
    returns (pruned: seq<map<string, Word>>, kept: seq<map<string, Word>>)
    ensures pruned == kept && |pruned| == |Book(ops).sent|
  {
    pruned := Play(ops, pruneAfterFlushes);
    kept := Play(ops, 0);
  }

  /**
   An idle counter is pruned in time, in any store: with no writes in between, a counter that owes nothing is
   in the map after `flushes` Flushes if and only if it has then been idle for fewer than pruneAfterFlushes.
   */
  method FlushTimes(store: StatStore, n: string, flushes: nat)
    requires store.Valid() && store.sink.collected == map[] && store.pruneAfterFlushes > 0
    requires n in store.counters && store.Owes(n) == 0 && store.Young(store.counters[n])
    modifies store, store.all, store.sink
    ensures store.Valid() && store.all == old(store.all)
    ensures n in store.counters <==> old(store.counters[n].idleFlushes) + flushes < store.pruneAfterFlushes
  {
    ghost var c, idle := store.counters[n], store.counters[n].idleFlushes;
    for i := 0 to flushes
      invariant store.Valid() && store.sink.collected == map[] && store.Owes(n) == 0 && store.all == old(store.all)
      invariant
        if idle + i < store.pruneAfterFlushes
        then n in store.counters && store.counters[n] == c && c.idleFlushes == idle + i
        else n !in store.counters
    {
      store.Flush();
    }
  }

  /** A counter that is looked up and never written leaves at the Flush number pruneAfterFlushes. */
  method NeverWrittenGoes(name: string, pruneAfterFlushes: Uint32, flushes: nat) returns (attached: bool)
    requires pruneAfterFlushes > 0
    ensures attached <==> flushes < pruneAfterFlushes
  {
    var sink := new Sink();
    var store := new StatStore(pruneAfterFlushes, sink);
    var c := store.NewCounter(name);
    assert store.Owes(name) == 0;
    FlushTimes(store, name, flushes);
    attached := name in store.counters;
  }

  function Sent(n: string): map<string, Word> -> int {
    (m: map<string, Word>) => Owed(m, n)
  }

  /** What the operation adds to name n. */
  function Adds(l: Ledger, op: Op, n: string): int {
    if op.Write? && op.handle < |l.names| && l.names[op.handle] == n then op.delta else 0
  }

  /** All that the run adds to name n. */
  function Added(ops: seq<Op>, n: string): int {
    if ops == [] then 0
    else
      var before, op := ops[..|ops| - 1], ops[|ops| - 1];
      Added(before, n) + Adds(Book(before), op, n)
  }

  /** What was sent for name n and is still owed is `added`, modulo 2^64. */
  predicate Conserves(l: Ledger, n: string, added: int) {
    Congruent(Sum(Sent(n), l.sent) + Owed(l.owed, n), added)
  }

  lemma EntryConserves(l: Ledger, op: Op, n: string)
    ensures
      Congruent(
        Sum(Sent(n), Enter(l, op).sent) + Owed(Enter(l, op).owed, n),
        Sum(Sent(n), l.sent) + Owed(l.owed, n) + Adds(l, op, n))
  {
    if op.Report? {
      SumAppend(Sent(n), l.sent, l.owed);
      assert Owed(map[], n) == 0;
    }
  }

  lemma ChainConserves(now: int, was: int, added: int, d: int)
    requires Congruent(now, was + d) && Congruent(was, added)
    ensures Congruent(now, added + d)
  {
    CongruentPlus(was, added, d);
    CongruentTrans(now, was + d, added + d);
  }

  lemma EntryKeeps(l: Ledger, op: Op, n: string, added: int)
    requires Conserves(l, n, added)
    ensures Conserves(Enter(l, op), n, added + Adds(l, op, n))
  {
    var r := Enter(l, op);
    EntryConserves(l, op, n);
    ChainConserves(
      Sum(Sent(n), r.sent) + Owed(r.owed, n), Sum(Sent(n), l.sent) + Owed(l.owed, n), added, Adds(l, op, n));
  }

  /** The ledger loses nothing: what was sent and is still owed is what was added, modulo 2^64. */
  lemma {:induction false} LedgerConserves(ops: seq<Op>, n: string)
    ensures Conserves(Book(ops), n, Added(ops, n))
  {
    if ops != [] {
      var before := ops[..|ops| - 1];
      LedgerConserves(before, n);
      EntryKeeps(Book(before), ops[|ops| - 1], n, Added(before, n));
    }
  }
}
