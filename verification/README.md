# Verified model of gostats

This project models the three parts of gostats whose correctness depends on more than one function at a time, and
proves what they promise for every input, every run and, where there are goroutines, every interleaving. `dafny
verify dfyconfig.toml` checks all of it.

**Counters, pruning and Flush (`stats.go`).** `CounterProtocol` is a step machine: any number of goroutines add
to, set and look up counters and call `Flush`, and every atomic operation and every `sync.Map` call is one step,
`latch` included (load, load, compare-and-swap). The theorems about it:

- what a run wrote to a name and what it reported for it are told from the steps of the run alone
  (`CounterHistory`), and the theorems below are about those two sums;
- no orphan: a counter outside the map is marked detached, except inside the one `Flush` that is deleting it
  (`CounterOrphans`);
- conservation modulo 2^64, with `Set`, counted as new minus old, and any number of counter objects per name
  (`CounterConservation`);
- nothing is stranded (`CounterStranding`), exact counting as natural numbers (`CounterExact`), and after the
  writers have finished one more `Flush` reports everything (`CounterQuiet`); with one counter object per name,
  where only `Flush` latches, counting is exact in every interleaving of Adds (`CounterUnique`);
- two latches of one counter can overlap and do harm (`CounterOverlap`); `CounterStale` proves, for every
  interleaving, exactly which commits strand a delta and which spoil the count;
- exactly which visit of Flush deletes a counter, and that it is never an earlier one than the
  `pruneAfterFlushes`-th in a row that found nothing to report (`CounterIdle`); which requests in seconds that
  honours, overflow included (`PruneWindow`);
- a Flush that runs alone ends after a bounded number of steps (`CounterQuiet`); exactly what it reports, takes
  out of the map and leaves in each counter (`CounterSweep`); in every interleaving each visit of Flush ends with
  one report or one idle count, and what was reported stays in the map (`CounterVisits`); nobody ever waits but
  for `flushMu`, and a writer that runs alone is done in 13 steps (`CounterProgress`).

`SequentialStore` has the same code as Dafny classes, and `PruningInvisible` proves that a run on them hands the
sink exactly what a plain ledger without counters, handles or pruning would, while an idle counter does go in
time. `Timers` does the same for timers, which hand each value to the sink themselves.

**Tags and stat names (`internal/tags/tags.go`, the sub-scopes of `stats.go`).** The byte order of keys, that it
is the order of Go strings and that it is total (`ByteOrder`), the sorting networks by the 0-1 principle
(`SortingNetworks`, `TagSort`), search and copy-on-write insertion into slices that may be shared (`TagSets`), the
merge into a scratch slice that overlaps its second input (`TagMerge`), the unrolled serializer against the simple
one (`TagSerialize`), the two parsers against each other and against the serializer (`TagParse`), and scopes
nested to any depth (`Scopes`).

**The statsd sink (`net_sink.go`).** `SinkBuffer` and `SinkFraming` are the producing side as classes: the
buffered writer, the bounded channel, and what is dropped and counted. `SinkProtocol` is the receiving goroutine
with its producers and its callers as a step machine over an arbitrary connection: `SinkOwnership` (buffers,
requests, never stuck), `SinkDelivery` (the bytes delivered), `SinkBarrier` (what a returned `Flush` means),
`SinkHistory` (what the run did, told from its steps; when a send is refused and when requests are drained),
`SinkProgress` (from every state all chunks can still be written and all requests closed).

## Assumptions

- Go atomics are sequentially consistent, and each `sync.Map` call is one step. `Range` visits a key at most once
  and visits every key that is present from its start to its end. Only `Flush` deletes.
- `pruneAfterFlushes` never changes after construction; the source demands that (stats.go:517-526).
- Unsigned 64-bit and 32-bit arithmetic wraps around, and so does Go's `int` in `PruneWindow`.
- Operations on `idleFlushes`, and the call of `FlushCounter`, are merged with the neighbouring atomic operation:
  only the holder of `flushMu` touches that field. A lookup that finds its key changes nothing and is no step.
  What stat generators write when `Flush` calls them is written by the same goroutine before it takes `flushMu`.
- Three regimes of interleavings. `ANY`: all of them. `SOLO`: all in which no two goroutines are at once between
  the first load and the compare-and-swap of `latch` on the same counter object; it covers `latch` taken as one
  atomic step, and every interleaving in which each name has one counter object
  (`CounterUnique.UniqueNamesAreSolo`). `ADDS`: SOLO without `Set`. Each theorem names its regime. Without SOLO
  some of these theorems are false; `CounterStale` has the exact condition for a run of `ANY`, and it covers SOLO.
- Strings are sequences of characters that stand for bytes. The order of Go map iteration is an arbitrary choice
  at each turn of a loop. A `TagSet` is a prefix of an array, which several TagSets may share; its tags as a
  sequence are what the serializers read and the parsers return. The variables `t0` to `t3` of `SerializeTags` are
  the elements of a sequence, and the collecting loop, which the source repeats for two, three and four tags, is
  written once.
- `sort.Sort`, `bufio.Writer`, `bytes.Buffer.WriteTo` and `strings.Index` are modelled by what their documentation
  says; the body of `TagSort.LibrarySort` only stands in for a sorted permutation.
- In `SinkFraming` the methods run one at a time, as the sink's mutex makes them; the receiver may take any number
  of chunks off the channel before each send. In `SinkProtocol` the tick of `run` only returns to the loop's head,
  because what it then flushes is a producer's step; dialling is a step with an arbitrary answer.

## Where documentation and code differ

- The comment on `latch` (stats.go:380-382) says a stale read is never committed. `latch` loads `currentValue`
  before `lastSentValue`, so it can be: `CounterOverlap` gives the interleaving, in which a delta is stranded and
  an underflowed one folded; `CounterStale.StrandsExactly` and `CounterStale.CountsExactly` say exactly which runs
  are harmed.
- The comment on `pruneAfterFlushesFromEnv` (stats.go:243-245) says an idle counter always survives the requested
  seconds. The addition in line 258 can overflow, and the clamp can be too low; `PruneWindow.SurvivesRequest` has
  the exact condition for every request and interval, `PruneWindow.OverflowPrunesEarly` an instance.
- docs/idle-pruning.md:24-27 says a write to a pruned timer reattaches it. It does not: `Timers.PrunedStaysOut` is
  a run, and `Timers.Play` proves that after a write a timer is in the map if and only if it was there before. The
  values are not lost: the same theorem has every value written sent to the sink, in order.
- A returned `Flush` does not mean the chunks were written when the sink drains its requests because it never got
  a connection: `SinkBarrier.FlushBarrier` has the condition and `SinkBarrier.DrainedUnsent` the run.

## Model

| member | source | states |
|---|---|---|
| CounterOrphans.NoOrphanEver | stats.go:321-353 | In every interleaving a counter outside the map is detached, so the next write rejoins it, except while the one Flush is between its Delete and its store of detached; without pruning nothing leaves the map |
| CounterOrphans.OneFlush | stats.go:483-510 | Two goroutines are never inside Flush at once, whatever they do outside it |
| CounterOrphans.ClearedInMap | stats.go:572-580 | detached is cleared only in a state in which that counter is in the map |
| CounterConservation.Conservation | stats.go:308-394 | In every interleaving, for every name: what the run reported, plus what all counter objects of the name owe, plus deltas in hand, is what the run wrote, modulo 2^64, Sets included |
| CounterHistory.Told | stats.go:308-316 | The amounts written and reported for a name are the sums, over the Add and Set steps of callers on counters of that name and over the FlushCounter steps for it, of what each step gives |
| CounterHistory.CurrentIsCounted | stats.go:308-353 | In every interleaving the value of every counter, in the map or not, is what its last Set gave it plus all that callers and folds added since, wrapping at 2^64 |
| CounterHistory.WriteCounts | stats.go:308-316 | An Add raises the counter it is called on by delta modulo 2^64 and a Set gives it the value, whether it is attached or not; no other counter changes |
| CounterHistory.LookupPublishes | stats.go:647-660 | A lookup that missed ends with a counter of the name in the map: the one another goroutine put there, or a new one that has counted nothing |
| CounterHistory.IdleTold | stats.go:569-592 | How long a counter has been idle is told from the run: visits in a row that found nothing, and Flush calls since its last report |
| CounterStranding.NothingStranded | stats.go:308-353 | Under SOLO: a counter outside the map with an unreported delta always has a goroutine obliged to it, a writer before the end of its rejoin or fold, or the Flush that deleted it |
| CounterStranding.IdleMeansInMap | stats.go:593-600 | Under SOLO: once all goroutines are idle every unreported delta sits in a counter in the map |
| CounterExact.ExactCounting | stats.go:383-394 | Under ADDS, below 2^64 written: what the run reported, dues and deltas in hand add up to what the run wrote as natural numbers, so no difference underflows |
| CounterExact.ReportsAreGenuine | stats.go:569-599 | Under ADDS: no FlushCounter value is zero or more than what is written and unreported |
| CounterUnique.ExactWhenUnique | stats.go:308-394 | In every interleaving of Adds with one counter object per name, below 2^64 written: what the run reported, dues and deltas in hand add up to what the run wrote as natural numbers |
| CounterUnique.NeverAhead | stats.go:383-394 | In that regime lastSentValue is at most currentValue, which is the sum of all Adds of the run to the name |
| CounterUnique.ReportsWhenUnique | stats.go:569-599 | In that regime no FlushCounter value is zero or an underflow: it is at most what is written and unreported |
| CounterUnique.NextFlushWhenUnique | stats.go:557-602 | In that regime, once the writers have finished, a run continued by a Flush that runs alone has reported the natural-number sum of all its Adds |
| CounterUnique.UniqueNamesAreSolo | stats.go:367-372 | While each name ever had one counter object, every interleaving is one of SOLO, and of ADDS when there is no Set: only Flush latches, and flushMu keeps its latches apart |
| CounterUnique.WithoutPruning | stats.go:583-585 | With pruning disabled each name has one counter object in every interleaving |
| CounterQuiet.NextFlushReportsAll | stats.go:557-602 | Under ADDS: after the writers have finished, the run continued by a Flush that runs alone has reported, for each name, the natural-number sum of its Adds, and nothing is owed |
| CounterQuiet.NextFlushReportsAllModulo | stats.go:557-602 | Under SOLO, with Sets: the same modulo 2^64 |
| CounterQuiet.FlushLeavesYoung | stats.go:583-592 | After every run of every interleaving, a Flush that no other operation overlaps leaves no counter in the map with idleFlushes at pruneAfterFlushes or more |
| CounterQuiet.FlushTakes | stats.go:567-602 | After every run of every interleaving, such a Flush makes at most ten steps for each key in the map and one to end: neither Range nor the retry loop of latch goes on for ever |
| CounterQuiet.FlushEnds | stats.go:567-602 | From every state of such a Flush there is a run to its end: it is never stuck |
| CounterSweep.FlushSweeps | stats.go:567-602 | After every run of every interleaving, a Flush that no other operation overlaps takes a counter out of the map if and only if it owes nothing and idleFlushes reaches pruneAfterFlushes; reported counters are attached with idleFlushes 0, removed ones detached, the others one flush older; values and counters outside the map stay |
| CounterSweep.FlushSends | stats.go:569-571 | Such a Flush reports for each name exactly what the counter in the map owes, and nothing for a name that has none |
| CounterProgress.NobodyWaits | stats.go:344-394 | In every interleaving a goroutine inside a call has a step it can take: no operation waits for another goroutine, and Range finds every key it has to visit |
| CounterProgress.IdleMay | stats.go:308-316 | An idle goroutine can write any counter and look up any name at any moment, Flush under way or not, and can enter Flush whenever flushMu is free |
| CounterProgress.WriterEnds | stats.go:308-394 | From every reachable state, wherever the others stand, a goroutine outside Flush that runs alone makes at most 13 steps to the end of its Add, Set or lookup: the recursion of rejoin through Add and the retry loop of latch end |
| CounterProgress.CallReturns | stats.go:308-394 | And it can always get there by its own steps |
| CounterOverlap.OverlapStrands | stats.go:383-394 | A run with two overlapping latches of one detached counter after which all goroutines are idle and the counter, outside the map, still owes 2 |
| CounterOverlap.OverlapUnderflows | stats.go:380-391 | A run in which a goroutine is about to fold 2^64 - 2 though 7 were added |
| CounterOverlap.CommitGenuine | stats.go:385-391 | A commit takes out of what the counter owes exactly what it hands on if and only if the value read lies between lastSentValue and currentValue |
| CounterStale.StrandsExactly | stats.go:344-394 | For every interleaving: in every state of the run each counter is in the map, or owes nothing, or has a goroutine that will look at all it owes, if and only if no commit of the run writes a stale value to a counter that owes nothing, is outside the map and is looked at by nobody else |
| CounterStale.CountsExactly | stats.go:383-394 | For every interleaving of Adds, below 2^64 written to the name by the run: sink total, dues and deltas in hand add up to what was written as natural numbers in every state of the run if and only if every commit on the name takes a value between lastSentValue and currentValue |
| CounterStale.SoloIsUnstranded | stats.go:344-394 | Every run of SOLO meets the condition of StrandsExactly |
| CounterStale.IdleOwesInMap | stats.go:593-600 | After a run that meets it, once all goroutines are idle every unreported delta sits in a counter in the map |
| CounterIdle.DeletedLate | stats.go:583-592 | In every interleaving, a counter is deleted only after at least pruneAfterFlushes visits in a row that found a zero delta since its last report, each by another Flush call, both counted from the run |
| CounterIdle.DeletesExactly | stats.go:583-592 | In every interleaving, a visit of Flush that finds a zero delta goes on to delete the counter if and only if pruning is on and it is the pruneAfterFlushes-th in a row or a later one, counted as a uint32; otherwise Range goes on |
| CounterIdle.SurvivesIdleSeconds | stats.go:243-263 | With Flushes one interval apart and a request that is honoured, a reported counter is not deleted before the requested seconds |
| CounterVisits.VisitsAnswered | stats.go:567-585 | In every interleaving each visit that Range makes of a counter, however often latch has to retry, ends with exactly one report or one count of an idle flush; both sides are counted from the run |
| CounterVisits.ReportedStays | stats.go:567-603 | In every interleaving, from a report of a counter to the next Flush call its name is in the map, even when the report came after its deletion; the one exception is the Flush that is about to rejoin it |
| PruneWindow.RoundsUp | stats.go:258-262 | Without overflow the seconds are rounded up to whole flushes, and they are covered if and only if they are at most MaxUint32 intervals |
| PruneWindow.Environment | stats.go:249-263 | Nothing is pruned unless the variable holds a positive number of seconds; an interval that is unset, malformed or not positive counts as 5; the seconds are rounded up to whole flushes, at most MaxUint32 |
| PruneWindow.SurvivesRequest | stats.go:249-263 | For every request and every interval, unless the result is 0 and nothing is pruned: the counter survives the requested seconds if and only if the addition fits and MaxUint32 intervals suffice, or it overflows and the interval is at least 2^32 seconds, or 2^32 - 1 with a request not 1 or 2 modulo that |
| PruneWindow.OverflowPrunesEarly | stats.go:258 | With 2^63 - 1 seconds and the default interval the addition overflows and the counter is pruned early |
| SequentialStore.Counter.Add | stats.go:308-311 | The name's amount to report grows by delta, other names' stay, and the store stays valid, whether the counter is attached, detached or superseded; a counter whose name is not in the map is put back |
| SequentialStore.Counter.Inc | stats.go:355-357 | The same with delta 1 |
| SequentialStore.Counter.Set | stats.go:313-316 | The value is assigned and the name's amount to report moves by new minus old, wrapping; other names' stay |
| SequentialStore.Counter.MaybeRejoin | stats.go:321-325 | What a detached counter owes reaches the owner of its name; an attached one, or any counter without pruning, is left alone |
| SequentialStore.Counter.Rejoin | stats.go:344-353 | The counter's unreported delta ends up with the owner of the name in the map, the counter itself if there is none; the mutual recursion with Add ends |
| SequentialStore.Counter.Latch | stats.go:383-394 | Hands out exactly what is owed and leaves nothing owed |
| SequentialStore.StatStore.NewCounter | stats.go:647-660 | Returns the counter in the map under the name, the one that was there or a new one, changing what no name owes |
| SequentialStore.StatStore.Visit | stats.go:567-602 | Range's callback: reports what the name owes and nothing else, touches no other name; the counter stays if and only if it owed something, pruning is off, or its idleFlushes, one more now or 0 after a report, is below pruneAfterFlushes |
| SequentialStore.StatStore.Relatch | stats.go:593-600 | The second latch after the delete: what a write left is reported and the counter is back in the map |
| SequentialStore.StatStore.Flush | stats.go:557-602 | Hands the sink exactly the non-zero amounts owed, name by name; the counters that stay are exactly those that owed something or have not been idle for pruneAfterFlushes Flushes, each with its idleFlushes; afterwards nothing is owed |
| PruningInvisible.Play | stats.go:308-353 | For every sequential run of lookups, Adds through any handle ever returned, and Flushes, the sink gets at each Flush exactly what the ledger has for it |
| PruningInvisible.PrunedAndNot | stats.go:512-527 | A store with any pruneAfterFlushes and one that never prunes hand over the same per-name values at each Flush |
| PruningInvisible.FlushTimes | stats.go:583-592 | In any store, a counter that owes nothing is in the map after any number of Flushes without writes if and only if its idleFlushes plus that number is below pruneAfterFlushes |
| PruningInvisible.NeverWrittenGoes | stats.go:583-592 | For every pruneAfterFlushes above 0, a counter looked up and never written is in the map before that many Flushes and out of it from then on |
| PruningInvisible.LedgerConserves | docs/idle-pruning.md:24-27 | The ledger loses nothing: what was sent and is still owed is what was added, modulo 2^64 |
| Timers.Timer.AddValue | stats.go:449-452 | The timer is marked used and the value goes to the sink under its name, whether or not the store still has it |
| Timers.TimerStore.NewTimer | stats.go:723-732 | The timer in the map under the name, or a new one put there |
| Timers.TimerStore.Visit | stats.go:604-615 | Range's callback: a timer used since the last visit, or not idle for too long, stays; any other goes; idleFlushes is 0 after a use and one more otherwise |
| Timers.TimerStore.Flush | stats.go:604-615 | Exactly the timers unused for pruneAfterFlushes visits in a row go, the others are marked unused, and the sink gets nothing |
| Timers.UnusedGoes | stats.go:604-615 | For every pruneAfterFlushes above 0, a timer that is never used is in the map before that many Flushes and out of it from then on |
| Timers.Play | docs/idle-pruning.md:24-27 | For every sequence of lookups, writes through any handle and Flushes the sink gets all values written, in order; a timer once out of the map never comes back, so after a write it is in the map if and only if it was before |
| Timers.PrunedStaysOut | docs/idle-pruning.md:24-27 | A run in which a Flush prunes a timer and the write that follows is sent but does not put it back |
| ByteOrder.LessIsByteOrder | internal/tags/tags.go:39 | A string is before another if and only if at the first place where they differ it ends or has the smaller byte: the order of Go strings |
| ByteOrder.Total | internal/tags/tags.go:39 | Of two strings one is before the other or they are equal, in the order of Go strings |
| ByteOrder.Transitive | internal/tags/tags.go:39 | The order of keys is transitive |
| SortingNetworks.SortsBits | internal/tags/tags.go:50-135 | Each of the seven networks sorts every choice of zeros and ones |
| SortingNetworks.ZeroOne | internal/tags/tags.go:43-47 | Running a network and taking bits by a threshold of the order commute, for every network and every total order |
| SortingNetworks.RunPermutes | internal/tags/tags.go:43-47 | A network permutes its input |
| TagSort.NetworkSorts | internal/tags/tags.go:50-135 | Each network leaves every choice of keys, equal ones included, in order |
| TagSort.Cas | internal/tags/tags.go:43-47 | One cas leaves what the rest of the network makes of the slice unchanged |
| TagSort.Sort | internal/tags/tags.go:50-136 | The slice is afterwards sorted and a permutation of what it was, nothing around it changes, for every length |
| TagSort.StrictUnique | internal/tags/tags.go:49-136 | There is only one strictly sorted sequence of given tags, so with distinct keys the result does not depend on the input order |
| TagSets.Search | internal/tags/tags.go:139-150 | The result splits the set at the key: before it smaller keys, from it on no smaller ones |
| TagSets.Contains | internal/tags/tags.go:153-159 | True if and only if the set's map has the key |
| TagSets.Insert | internal/tags/tags.go:163-185 | The strictly sorted set of the map with the tag put in, replacing an equal key; a new array or, when nothing changes, the receiver, whose tags stay as they were |
| TagSets.ReplaceChars | internal/tags/tags.go:454-469 | Every colon, dot and bar becomes an underscore and nothing else changes |
| TagSets.NewTag | internal/tags/tags.go:16-21 | The value is cleaned, the key is not |
| TagMerge.UnionMap | internal/tags/tags.go:277-303 | The right-biased union of two strictly sorted sets is strictly sorted and stands for the first map overridden by the second |
| TagMerge.MergeTagSets | internal/tags/tags.go:280-303 | With s2 lying in the slice that is written, at or after the room for s1 and with unused slots after it or not, the result is the union of s1 and of s2 as they were on entry: no unread element is overwritten |
| TagMerge.NewTagSet | internal/tags/tags.go:26-35 | The strictly sorted set of the cleaned map: a key is in it if and only if it and its value are not empty |
| TagMerge.MergeTags | internal/tags/tags.go:190-216 | On every path the strictly sorted set of the receiver's map overridden by the cleaned non-empty tags; the receiver's tags stay as they were, and the result is in a new array or is the receiver |
| TagMerge.MergeOneTag | internal/tags/tags.go:219-232 | The same on the path for one tag, empty key or value included |
| TagMerge.MergePerInstanceTags | internal/tags/tags.go:244-275 | The same with the tag "_f" set to "i" only when neither side has it with a value |
| TagSerialize.Serialize | internal/tags/tags.go:307-332 | Name, then ".__key=value" for each tag in order |
| TagSerialize.SerializedEnds | internal/tags/tags.go:324-330 | A stat with tags is the stat without the last one followed by ".__", its key, "=" and its value; without tags it is the name |
| TagSerialize.CountValid | internal/tags/tags.go:339-345 | The number of tags that count, in whatever order the map is met |
| TagSerialize.SerializeOne | internal/tags/tags.go:350-358 | The loop that stops at the first tag that counts has met all of the set |
| TagSerialize.CollectFew | internal/tags/tags.go:359-424 | The variables shifted along by the collecting loop hold exactly the cleaned tags |
| TagSerialize.SerializeMany | internal/tags/tags.go:425-450 | The default case gives the string of the map's TagSet |
| TagSerialize.SerializeTags | internal/tags/tags.go:335-451 | In all its cases and for every order in which each of its loops meets the map, the string of the map's TagSet |
| TagSerialize.TwoTags | internal/tags/tags.go:359-372 | Of two clean tags the one whose key is smaller byte by byte is written first |
| TagSerialize.FastAndSimple | internal/tags/tags.go:335-451 | SerializeTags gives what NewTagSet and Serialize give |
| TagParse.RemoveStatValue | internal/tags/tags.go:472-486 | Cuts the stat at its last colon, if it has one: what is cut off holds no other colon |
| TagParse.IndexIsFirst | internal/tags/tags.go:497-511 | strings.Index gives the first place where the separator stands, and -1 if and only if it stands nowhere |
| TagParse.ParsePairs | internal/tags/tags.go:497-520 | The loop consumes exactly the separators counted and gives the map of the segments, later ones winning |
| TagParse.ParseTags | internal/tags/tags.go:489-523 | Name and map of the stat without its wire value; no map when there is no separator |
| TagParse.ParseTagSet | internal/tags/tags.go:527-574 | The same name, and the tags as a sorted permutation of the segments' tags |
| TagParse.ParseSlots | internal/tags/tags.go:535-571 | The loop never leaves the slots counted beforehand and gives a sorted permutation of the segments' tags |
| TagParse.ParseBoth | internal/tags/tags.go:489-574 | On every string, malformed segments included, the parsers return the same name and keys, and the same values whenever the segments' keys are distinct |
| TagParse.RoundTrip | internal/tags/tags.go:489-574 | Parsing a serialized plain stat, with or without a wire suffix, gives back exactly the name and the set, and the set's map |
| TagParse.ParsesSerialized | internal/tags/tags.go:307-332 | The segments of a serialized plain stat are its tags in order, whatever follows the last colon |
| TagParse.SerializeInjective | internal/tags/tags.go:307-332 | Two plain stats with the same string have the same name and tags |
| Scopes.NewSubScope | stats.go:784-786 | The scope's tags are the strictly sorted set of the cleaned map |
| Scopes.ScopeWithTags | stats.go:792-799 | The sub-scope's name is the parent's, a dot and its own, and its tags the parent's overridden by the cleaned ones; the parent's tags stay as they were |
| Scopes.CounterKey | stats.go:809-811 | The key is that of the scope's name, a dot and the stat's name, with the overridden tags |
| Scopes.PerInstanceKey | stats.go:813-816 | The same with the per-instance tag |
| Scopes.Nest | stats.go:792-799 | ScopeWithTags called any number of times gives the root's name followed by a dot and each level's name in order, and the tags overridden level by level, and leaves the first scope's tags as they were |
| Scopes.NestedScopes | stats.go:784-811 | Scopes nested to any depth, one scope with the dotted name and overridden tags, and the store itself with the full name and tags give one key: that of the root, the levels and the stat in order, with dots between |
| Scopes.RawOverride | internal/tags/tags.go:190-216 | Overriding before cleaning gives the same tags if and only if no tag of the parent is overridden by an empty value |
| Scopes.KeysTellStatsApart | stats.go:666-673 | Plain stats share a counter if and only if their names and cleaned tags are equal |
| SinkBuffer.Channel.Write | net_sink.go:147-157 | The chunk is put on outc whole and last, or not at all and an error is returned; it is refused only when outc is full, and then outc is as it was |
| SinkBuffer.BufWriter.Flush | net_sink.go:170 | All buffered bytes become one chunk, or outc is full, they stay and the error is sticky; an empty buffer sends nothing |
| SinkBuffer.BufWriter.Write | net_sink.go:220 | Without an error every byte is on the channel or in the buffer, in order; a line that fits cannot fail, one longer than the empty buffer is written as it is, and an error means that outc is full |
| SinkFraming.NetSink.HandleFlushErrorSize | net_sink.go:194-204 | droppedBytes grows by the size, wrapping, and the buffer and its sticky error are cleared |
| SinkFraming.NetSink.HandleFlushError | net_sink.go:207-209 | The same with the number of bytes buffered |
| SinkFraming.NetSink.Flush | net_sink.go:168-176 | The buffered lines become one chunk, or outc is full and they are all dropped and counted; framing and accounting hold again |
| SinkFraming.NetSink.WriteBuffer | net_sink.go:211-224 | What becomes of the line and of the lines buffered before it in each case: buffered, buffered after a flush that drops only if outc is full, a chunk of its own, or lost, only if outc is full |
| SinkFraming.NetSink.RetryFailed | net_sink.go:304-308 | A chunk given up is counted as dropped and the buffer is cleared uncounted; framing holds |
| SinkFraming.Produce | net_sink.go:168-224 | In every run each chunk is a non-empty concatenation of whole lines within the buffer size or one longer line, the lines sent and buffered are those submitted in order with some left out, and when all lines fit and no retry fails, bytes submitted = sent + buffered + droppedBytes modulo 2^64; while fewer chunks were enqueued than outc holds and no retry failed, nothing is left out or dropped |
| SinkOwnership.NoSharing | net_sink.go:371-382 | In every run a pooled buffer is pooled once and is in no channel and no hand, and no buffer is in two of the pool, outc, retryc, a producer's hand and the consumer's |
| SinkOwnership.ClosedOnce | net_sink.go:159-191 | Every Flush request is waiting, being served or closed, exactly one of them, and its channel is closed at most once |
| SinkOwnership.NeverStuck | net_sink.go:275-343 | In every reachable state run has a step: retryc is empty when it pushes, outc has the chunks its flush loop counted, and it never writes without a connection |
| SinkDelivery.DeliveredInOrder | net_sink.go:301-358 | Over all connections and retries the bytes sent are a prefix of each chunk received, in the order enqueued, with at most two attempts; a chunk is cut short only if both failed |
| SinkDelivery.DeliveredVerbatim | net_sink.go:345-358 | While no write has failed, and between two writes, the bytes sent are exactly the chunks received, whole and in order |
| SinkHistory.HistoryTold | net_sink.go:147-157 | The chunks enqueued are, in order, those of the sends that met fewer chunks than outc holds; each request is marked with the number enqueued before it; the bytes sent are as many as the connection took; no channel holds more than its capacity |
| SinkHistory.NothingRefused | net_sink.go:147-157 | While outc was given fewer chunks than it holds, every chunk offered was enqueued, in order |
| SinkHistory.DrainsExactly | net_sink.go:283-291 | A connect leads to draining the requests if and only if it and the one before it failed; draining ends when no request waits or 64 were closed |
| SinkProgress.AllGetsDone | net_sink.go:275-343 | From every reachable state, if the connection is accepted and takes all it is given from then on, steps of run alone lead to a state in which every chunk enqueued was written, whole unless both attempts failed before, and the channel of every Flush request is closed |
| SinkBarrier.FlushSettles | net_sink.go:318-334 | When the flush loop ends with the connection up, every chunk enqueued before the request was written whole or given up after two failed writes |
| SinkBarrier.FlushBarrier | net_sink.go:159-191 | While no write has failed: a request's channel is closed with all chunks enqueued before it written if and only if the flush loop closes it or there were no such chunks |
| SinkBarrier.DrainedUnsent | net_sink.go:283-297 | For every chunk, a run in which two failed connects drain the request and the chunk is unsent |

## Left out

- SequentialStore.StatStore.Flush: leaves out the stat generators, which the source calls first; one that writes
  counters is a run of those writes before the Flush.
- Gauges: they are never pruned and would add only easy members. So would `AddDuration` and the timespans.
- Timers.Play: does not interleave a timer's write with Flush; a timer that Flush deletes at that moment is out of
  the map although it was just used.
- PruningInvisible.PrunedAndNot: does not cover `Set`, because a forwarded `Set` folds a delta instead of
  assigning, so it is not equivalent there. `Set` is in the conservation theorem.
- SinkFraming.Produce: does not account for bytes of oversize lines that find the channel full, which the code
  counts as 0, nor for what the reset after a failed retry discards; the books in that module record both amounts.
- SinkBarrier.FlushSettles: does not cover a loop cut short by a failed write, after which the chunk at fault
  waits in retryc.
- The store's own per-instance constructors given an empty "_f", which drop the tag (stats.go:681-683).
- `validateTags`, float formatting, and the logging threshold for dropped bytes (net_sink.go:196).
- Dialling, timeouts, sleeping, the ticker and whether a connection ever comes back: wall time and the network.
- The stat handlers, the settings, and the logging, null and mock sinks.
