/**
 The counters of a statStore as the source writes them, run by one goroutine: objects that update their
 fields in place, a map from names to them, and a sink that records what each Flush hands over.
 */
module SequentialStore {
  import opened Word64

  /** Raising a counter raises what it owes by as much, modulo 2^64. */
  lemma DueRaised(current: Word, last: Word, d: Word)
    ensures Minus(Plus(current, d), last) == Plus(Minus(current, last), d)
  {
  }

  /** A sink: FlushCounter collects values by name and Flush sends what was collected. */
  class Sink {
    var collected: map<string, Word>
    var sent: seq<map<string, Word>>

    constructor ()
      ensures collected == map[] && sent == []
    {
      collected, sent := map[], [];
    }

    method FlushCounter(name: string, value: Word)
      requires name !in collected
      modifies this`collected
      ensures collected == old(collected)[name := value]
    {
      collected := collected[name := value];
    }

    method Flush()
      modifies this
      ensures sent == old(sent) + [old(collected)] && collected == map[]
    {
      sent, collected := sent + [collected], map[];
    }
  }

  /** What of the owed amounts has been reported when the keys in todo have yet to be visited. */
  ghost function Done(owed: map<string, Word>, todo: set<string>): map<string, Word> {
    map n | n in owed && n !in todo :: owed[n]
  }

  ghost function Still(owed: map<string, Word>, todo: set<string>, n: string): Word {
    if n in owed && n in todo then owed[n] else 0
  }

  lemma DoneEnds(owed: map<string, Word>, todo: set<string>)
    ensures owed.Keys <= todo ==> Done(owed, todo) == map[]
    ensures Done(owed, {}) == owed
  {
  }

  lemma DoneGrows(owed: map<string, Word>, todo: set<string>, key: string)
    requires key in todo
    ensures Done(owed, todo - {key}) == if key in owed then Done(owed, todo)[key := owed[key]] else Done(owed, todo)
  {
  }

  class StatStore {
    var counters: map<string, Counter>
    const pruneAfterFlushes: Uint32
    const sink: Sink
    ghost var all: set<Counter>

    ghost predicate InMap(c: Counter)
      reads this
    {
      c.key in counters && counters[c.key] == c
    }

    /** The map's entries are counters of this store under their own names. */
    ghost predicate Sound()
      reads this, all
    {
      && (forall n :: n in counters ==> counters[n] in all && counters[n].key == n)
      && forall c :: c in all ==>
        && c.home == this
        && (if pruneAfterFlushes > 0 then c.store == this && c.name == c.key else c.store == null && InMap(c))
    }

    /** A counter outside the map is marked detached and owes nothing. */
    ghost predicate Settled(c: Counter)
      reads this, c
    {
      InMap(c) || (c.detached && c.currentValue == c.lastSentValue)
    }

    ghost predicate SettledBut(c: Counter)
      reads this, all
    {
      forall d :: d in all && d != c ==> Settled(d)
    }

    ghost predicate Valid()
      reads this, all
    {
      Sound() && forall c :: c in all ==> Settled(c)
    }

    /** What the next Flush has to report for name n. */
    ghost function Owes(n: string): Word
      reads this, all
    {
      if n in counters && counters[n] in all then counters[n].Due() else 0
    }

    /** The same for all names, leaving out those that owe nothing. */
    ghost function Unreported(): map<string, Word>
      reads this, all
    {
      map n | n in counters && Owes(n) != 0 :: Owes(n)
    }

    ghost function Values(): map<Counter, Word>
      reads this, all
    {
      map c | c in all :: c.currentValue
    }

    /** Every counter but c still has the value it had. */
    ghost predicate Others(c: Counter, before: map<Counter, Word>)
      reads this, all
    {
      forall d :: d in all && d in before && d != c ==> d.currentValue == before[d]
    }

    constructor (pruneAfterFlushes: Uint32, sink: Sink)
      ensures Valid() && all == {} && this.pruneAfterFlushes == pruneAfterFlushes && this.sink == sink
      ensures Unreported() == map[]
    {
      this.pruneAfterFlushes, this.sink, counters, all := pruneAfterFlushes, sink, map[], {};
    }

    method NewCounter(serializedName: string) returns (c: Counter)
      requires Valid()
      modifies this
      ensures Valid() && c in all && c.key == serializedName && InMap(c)
      ensures old(all) <= all && fresh(all - old(all))
      ensures forall n :: Owes(n) == old(Owes(n))
      ensures counters == old(counters)[serializedName := c]
      ensures
        if serializedName in old(counters) then c == old(counters)[serializedName]
        else fresh(c) && !c.detached && c.idleFlushes == c.currentValue == 0
    {
      if serializedName in counters {
        c := counters[serializedName];
        assert counters == counters[serializedName := c];
        return;
      }
      c := new Counter(this, serializedName);
      all := all + {c};
      counters := counters[serializedName := c];
    }

    /** A counter that has not been idle for pruneAfterFlushes visits. */
    ghost predicate Young(c: Counter)
      reads this, c
    {
      pruneAfterFlushes == 0 || c.idleFlushes < pruneAfterFlushes
    }

    /** Whether a visit of Flush leaves a counter in the map that owes something or not. */
    ghost predicate Stays(owes: bool, idleFlushes: Uint32) {
      owes || pruneAfterFlushes == 0 || Next(idleFlushes) < pruneAfterFlushes
    }

    /** The idleFlushes of the counter afterwards. */
    ghost function Aged(owes: bool, idleFlushes: Uint32): Uint32 {
      if owes then 0 else if pruneAfterFlushes == 0 then idleFlushes else Next(idleFlushes)
    }

    /** Range's callback: what the counter owes goes to the sink, and a counter idle too long goes. */
    method Visit(key: string)
      requires Valid() && key in counters && key !in sink.collected
      modifies this`counters, sink`collected, all
      ensures Valid() && all == old(all) && Owes(key) == 0
      ensures forall n :: n in old(counters) && n != key ==> n in counters
      ensures forall n :: n in counters ==> n in old(counters) && counters[n] == old(counters)[n]
      ensures forall n :: n != key ==> Owes(n) == old(Owes(n))
      ensures
        sink.collected ==
          if old(Owes(key)) == 0 then old(sink.collected) else old(sink.collected)[key := old(Owes(key))]
      ensures key in counters <==> Stays(old(Owes(key)) != 0, old(counters[key].idleFlushes))
      ensures old(counters)[key].idleFlushes == Aged(old(Owes(key)) != 0, old(counters[key].idleFlushes))
      ensures old(counters)[key].detached == (key !in counters || (old(Owes(key)) == 0 && old(counters[key].detached)))
      ensures
        forall d :: d in all && d.key != key ==> d.idleFlushes == old(d.idleFlushes) && d.detached == old(d.detached)
    {
      var c := counters[key];
      var value := c.Latch();
      if value != 0 {
        sink.FlushCounter(key, value);
        c.idleFlushes := 0;
        c.detached := false;
        return;
      }
      if pruneAfterFlushes == 0 {
        return;
      }
      c.idleFlushes := Next(c.idleFlushes);
      if c.idleFlushes < pruneAfterFlushes {
        return;
      }
      counters := counters - {key};
      c.detached := true;
      Relatch(key, c);
    }

    /** The second latch, after the delete: what a racing write left is reported and the counter rejoins. */
    method Relatch(key: string, c: Counter)
      requires Sound() && SettledBut(c) && c in all && c.key == key && key !in counters
      requires c.detached && pruneAfterFlushes > 0
      requires key !in sink.collected
      modifies this`counters, sink`collected, all`currentValue, all`lastSentValue, c`idleFlushes
      ensures Valid() && all == old(all) && forall n :: Owes(n) == old(Owes(n))
      ensures old(c.Due()) == 0 ==> counters == old(counters) && sink.collected == old(sink.collected)
      ensures c.idleFlushes == if old(c.Due()) == 0 then old(c.idleFlushes) else 0
      ensures old(c.Due()) != 0 ==> InMap(c) && Young(c) && sink.collected == old(sink.collected)[key := old(c.Due())]
    {
      var v := c.Latch();
      if v != 0 {
        sink.FlushCounter(key, v);
        c.idleFlushes := 0;
        c.Rejoin();
      }
    }

    /** Range has visited all keys but those in todo: what they owe is left, the rest is collected. */
    ghost predicate Halfway(owed: map<string, Word>, todo: set<string>)
      reads this, all, sink
    {
      && Valid() && todo <= counters.Keys && sink.collected == Done(owed, todo)
      && (forall n :: n in owed ==> owed[n] != 0)
      && forall n :: Owes(n) == Still(owed, todo, n)
    }

    /** The counters visited, and no others, are aged and have gone if they were idle too long. */
    ghost predicate Swept(
        was: map<string, Counter>, idle: map<string, Uint32>, owed: map<string, Word>, todo: set<string>)
      requires was.Keys <= idle.Keys
      reads this, all
    {
      && counters.Keys <= was.Keys
      && forall n :: n in was ==>
        && was[n] in all && was[n].key == n
        && was[n].idleFlushes == (if n in todo then idle[n] else Aged(n in owed, idle[n]))
        && (n in counters <==> n in todo || Stays(n in owed, idle[n]))
        && (n in counters ==> counters[n] == was[n])
    }

    method VisitNext(key: string, ghost was: map<string, Counter>, ghost idle: map<string, Uint32>,
                     ghost owed: map<string, Word>, ghost todo: set<string>)
      requires Halfway(owed, todo) && was.Keys <= idle.Keys && Swept(was, idle, owed, todo) && key in todo
      modifies this`counters, sink`collected, all
      ensures Halfway(owed, todo - {key}) && Swept(was, idle, owed, todo - {key}) && all == old(all)
    {
      DoneGrows(owed, todo, key);
      assert Owes(key) == Still(owed, todo, key);
      Visit(key);
    }

    /**
     Hands the sink exactly what is owed, name by name, whether or not counters are pruned; idleFlushes counts
     the Flushes in a row that found nothing to report, and a counter leaves when there were too many.
     */
    method Flush()
      requires Valid() && sink.collected == map[]
      modifies this`counters, sink, all
      ensures Valid() && all == old(all) && sink.collected == map[]
      ensures forall n :: Owes(n) == 0
      ensures sink.sent == old(sink.sent) + [old(Unreported())]
      ensures
        forall n :: n in counters <==>
          && n in old(counters)
          && (old(Owes(n)) != 0 || pruneAfterFlushes == 0 || Next(old(counters[n].idleFlushes)) < pruneAfterFlushes)
      ensures forall n :: n in counters ==> counters[n] == old(counters)[n] && Young(counters[n])
      ensures
        forall n :: n in old(counters) ==>
          old(counters)[n].idleFlushes ==
            if old(Owes(n)) != 0 then 0
            else if pruneAfterFlushes == 0 then old(counters[n].idleFlushes)
            else Next(old(counters[n].idleFlushes))
    {
      ghost var was, idle, owed := counters, map n | n in counters :: counters[n].idleFlushes, Unreported();
      var todo := counters.Keys;
      DoneEnds(owed, todo);
      while todo != {}
        invariant Halfway(owed, todo) && Swept(was, idle, owed, todo)
        invariant all == old(all) && sink.sent == old(sink.sent)
        decreases todo
      {
        var key :| key in todo;
        VisitNext(key, was, idle, owed, todo);
        todo := todo - {key};
      }
      sink.Flush();
    }
  }

  class Counter {
    var currentValue: Word
    var lastSentValue: Word
    var idleFlushes: Uint32
    var detached: bool
    const store: StatStore?   // null when pruning is disabled
    const name: string        // empty when pruning is disabled
    ghost const home: StatStore
    ghost const key: string

    constructor (home: StatStore, key: string)
      ensures this.home == home && this.key == key
      ensures if home.pruneAfterFlushes > 0 then store == home && name == key else store == null
      ensures currentValue == lastSentValue == 0 && !detached && idleFlushes == 0
    {
      this.home, this.key := home, key;
      currentValue, lastSentValue, idleFlushes, detached := 0, 0, 0, false;
      store := if home.pruneAfterFlushes > 0 then home else null;
      name := if home.pruneAfterFlushes > 0 then key else "";
    }

    ghost function Due(): Word
      reads this
    {
      Minus(currentValue, lastSentValue)
    }

    /** Raises what the store owes for this counter's name by delta, wherever the counter stands. */
    method Add(delta: Word)
      requires home.Valid() && this in home.all
      modifies home`counters, home.all`currentValue, home.all`lastSentValue
      ensures home.Valid() && home.all == old(home.all) && currentValue == Plus(old(currentValue), delta)
      ensures home.counters == if old(key in home.counters) then old(home.counters) else old(home.counters)[key := this]
      ensures forall n :: home.Owes(n) == if n == key then Plus(old(home.Owes(n)), delta) else old(home.Owes(n))
      ensures old(home.InMap(this)) ==> home.Others(this, old(home.Values()))
      decreases if home.InMap(this) then 0 else 1, 2
    {
      DueRaised(currentValue, lastSentValue, delta);
      currentValue := Plus(currentValue, delta);
      MaybeRejoin();
    }

    method Inc()
      requires home.Valid() && this in home.all
      modifies home`counters, home.all`currentValue, home.all`lastSentValue
      ensures home.Valid() && home.all == old(home.all) && currentValue == Plus(old(currentValue), 1)
      ensures home.counters == if old(key in home.counters) then old(home.counters) else old(home.counters)[key := this]
      ensures forall n :: home.Owes(n) == if n == key then Plus(old(home.Owes(n)), 1) else old(home.Owes(n))
    {
      Add(1);
    }

    /** Assigns the value; what the store owes for the name moves by the difference. */
    method Set(value: Word)
      requires home.Valid() && this in home.all
      modifies home`counters, home.all`currentValue, home.all`lastSentValue
      ensures home.Valid() && home.all == old(home.all) && currentValue == value
      ensures home.counters == if old(key in home.counters) then old(home.counters) else old(home.counters)[key := this]
      ensures
        forall n :: home.Owes(n) ==
          if n == key then Plus(old(home.Owes(n)), Minus(value, old(currentValue))) else old(home.Owes(n))
    {
      DueRaised(currentValue, lastSentValue, Minus(value, currentValue));
      currentValue := value;
      MaybeRejoin();
    }

    method MaybeRejoin()
      requires home.Sound() && this in home.all && home.SettledBut(this) && (home.InMap(this) || detached)
      modifies home`counters, home.all`currentValue, home.all`lastSentValue
      ensures home.counters == if old(key in home.counters) then old(home.counters) else old(home.counters)[key := this]
      ensures home.Valid() && home.all == old(home.all) && currentValue == old(currentValue)
      ensures old(home.InMap(this)) ==> home.Others(this, old(home.Values()))
      ensures
        forall n :: home.Owes(n) ==
          if n == key && !old(home.InMap(this)) then Plus(old(home.Owes(n)), old(Due())) else old(home.Owes(n))
      decreases if home.InMap(this) then 0 else 1, 1
    {
      if store != null && detached {
        Rejoin();
      }
    }

    /** Puts the counter back under its name, or folds what it owes into the counter that has taken the name. */
    method Rejoin()
      requires home.Sound() && this in home.all && home.SettledBut(this) && store != null && detached
      modifies home`counters, home.all`currentValue, home.all`lastSentValue
      ensures home.counters == if old(key in home.counters) then old(home.counters) else old(home.counters)[key := this]
      ensures home.Valid() && home.all == old(home.all) && currentValue == old(currentValue)
      ensures old(home.InMap(this)) ==> home.Others(this, old(home.Values()))
      ensures
        forall n :: home.Owes(n) ==
          if n == key && !old(home.InMap(this)) then Plus(old(home.Owes(n)), old(Due())) else old(home.Owes(n))
      decreases if home.InMap(this) then 0 else 1, 0
    {
      if name !in store.counters {
        store.counters := store.counters[name := this];
        return;
      }
      var other := store.counters[name];
      if other != this {
        var delta := Latch();
        other.Add(delta);
      }
    }

    /** Hands out what the counter owes and advances lastSentValue to the current value. */
    method Latch() returns (delta: Word)
      modifies this`lastSentValue
      ensures delta == old(Due()) && lastSentValue == currentValue
    {
      var swapped := false;
      delta := 0;
      while !swapped
        invariant
          if swapped then lastSentValue == currentValue && delta == old(Due())
          else lastSentValue == old(lastSentValue)
        decreases !swapped
      {
        var value := currentValue;
        var lastSent := lastSentValue;
        if value == lastSent {
          return 0;
        }
        swapped := CompareAndSwap(lastSent, value);
        delta := Minus(value, lastSent);
      }
    }

    method CompareAndSwap(expected: Word, value: Word) returns (swapped: bool)
      modifies this`lastSentValue
      ensures swapped == (old(lastSentValue) == expected)
      ensures lastSentValue == if swapped then value else old(lastSentValue)
    {
      swapped := lastSentValue == expected;
      if swapped {
        lastSentValue := value;
      }
    }
  }
}
