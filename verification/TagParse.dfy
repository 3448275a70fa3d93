/** ParseTags and ParseTagSet, and that they invert Serialize. */
module TagParse {
  import opened Options
  import opened TagSort
  import opened TagSets
  import opened TagSerialize

  /** strings.Index: where sub first occurs in s, or -1. */
  function Index(s: string, sub: string): (i: int)
    ensures -1 <= i <= |s| - |sub| || i == -1
  {
    if sub <= s then 0
    else if s == [] then -1
    else if Index(s[1..], sub) < 0 then -1 else Index(s[1..], sub) + 1
  }

  /** sub stands at place i of s. */
  predicate StandsAt(s: string, sub: string, i: nat) {
    i <= |s| && sub <= s[i..]
  }

  /** Index finds the first place, and -1 means that there is none. */
  lemma {:induction false} IndexIsFirst(s: string, sub: string)
    ensures Index(s, sub) >= 0 ==> StandsAt(s, sub, Index(s, sub))
    ensures forall i: nat :: StandsAt(s, sub, i) ==> 0 <= Index(s, sub) <= i
  {
    if sub <= s {
      assert s[0..] == s;
    } else if s != [] {
      IndexIsFirst(s[1..], sub);
      forall i: nat | StandsAt(s, sub, i)
        ensures 0 <= Index(s, sub) <= i
      {
        assert i > 0 by {
          assert s[0..] == s;
        }
        assert s[1..][i - 1..] == s[i..];
        assert StandsAt(s[1..], sub, i - 1);
      }
      if Index(s[1..], sub) >= 0 {
        assert s[1..][Index(s[1..], sub)..] == s[Index(s[1..], sub) + 1..];
      }
    } else {
      assert s[0..] == s;
    }
  }

  /** strings.IndexByte */
  function IndexByte(s: string, c: char): (i: int)
    ensures if c in s then 0 <= i < |s| && s[i] == c && c !in s[..i] else i == -1
  {
    if s == [] then -1
    else if s[0] == c then 0
    else
      assert forall i :: 0 < i < |s| ==> s[..i] == [s[0]] + s[1..][..i - 1];
      if IndexByte(s[1..], c) < 0 then -1 else IndexByte(s[1..], c) + 1
  }

  /** strings.Count for the tag prefix. */
  function Count(s: string): nat {
    var m := Index(s, PREFIX);
    if m < 0 then 0 else 1 + Count(s[m + |PREFIX|..])
  }

  /** The tag of a segment "key=value"; a segment without "=" has none. */
  function TagOf(a: string): seq<Tag> {
    var o := IndexByte(a, '=');
    if o < 0 then [] else [Tag(a[..o], a[o + 1..])]
  }

  /** The tags of the segments between separators, in the order in which they stand. */
  function TagsIn(s: string): seq<Tag> {
    var m := Index(s, PREFIX);
    if m < 0 then TagOf(s) else TagOf(s[..m]) + TagsIn(s[m + |PREFIX|..])
  }

  function LastColon(s: string): (n: nat)
    requires ':' in s
    ensures n < |s| && s[n] == ':' && ':' !in s[n + 1..]
  {
    if s[|s| - 1] == ':' then |s| - 1
    else
      var n := LastColon(s[..|s| - 1]);
      assert s[n + 1..] == s[..|s| - 1][n + 1..] + [s[|s| - 1]];
      n
  }

  /** The stat without what follows its last colon. */
  function StripValue(s: string): string {
    if ':' !in s then s else s[..LastColon(s)]
  }

  /** The name and, if there are any, the tags of a stat in the order in which they stand there. */
  function Parsed(stat: string): (string, Option<seq<Tag>>) {
    var s := StripValue(stat);
    var o := Index(s, PREFIX);
    if o < 0 then (s, None) else (s[..o], Some(TagsIn(s[o + |PREFIX|..])))
  }

  lemma NoColonAfter(s: string, n: nat)
    requires n < |s| && ':' !in s[n + 1..]
    ensures forall k :: n < k < |s| ==> s[k] != ':'
  {
    assert forall k :: n < k < |s| ==> s[k] == s[n + 1..][k - n - 1];
  }

  lemma LastColonIs(s: string, n: nat)
    requires n < |s| && s[n] == ':' && ':' !in s[n + 1..]
    ensures ':' in s && LastColon(s) == n
  {
    NoColonAfter(s, n);
    NoColonAfter(s, LastColon(s));
  }

  /** removeStatValue: cut at the last colon, if there is one. */
  method RemoveStatValue(s: string) returns (r: string)
    ensures r == StripValue(s)
    ensures
      if ':' in s then |r| < |s| && s[..|r|] == r && s[|r|] == ':' && ':' !in s[|r| + 1..]
      else r == s
  {
    var i := IndexByte(s, ':');
    if i == -1 {
      return s;
    }
    var n := i;
    i := i + 1;
    while i < |s|
      invariant 0 <= n < i <= |s| && s[n] == ':' && ':' !in s[n + 1..i]
    {
      if s[i] == ':' {
        n := i;
      }
      i := i + 1;
    }
    LastColonIs(s, n);
    r := s[..n];
  }

  lemma CountPositive(s: string)
    ensures Count(s) > 0 <==> Index(s, PREFIX) >= 0
  {
  }

  lemma Assoc(a: seq<Tag>, b: seq<Tag>, c: seq<Tag>)
    ensures a + (b + c) == a + b + c
  {
  }

  /** One round of the parsers' loops takes one segment. */
  lemma TakeSegment(s: string, n: nat, got: seq<Tag>, all: seq<Tag>)
    requires n == Count(s) && n > 0 && got + TagsIn(s) == all
    ensures
      var m := Index(s, PREFIX);
      m >= 0 && Count(s[m + |PREFIX|..]) == n - 1 && got + TagOf(s[..m]) + TagsIn(s[m + |PREFIX|..]) == all
  {
    var m := Index(s, PREFIX);
    CountPositive(s);
    Assoc(got, TagOf(s[..m]), TagsIn(s[m + |PREFIX|..]));
  }

  /** tags[a[:o]] = a[o+1:], if the segment has an "=". */
  method PutSegment(m: map<string, string>, a: string, ghost got: seq<Tag>) returns (r: map<string, string>)
    requires m == ToMap(got)
    ensures r == ToMap(got + TagOf(a))
  {
    var o := IndexByte(a, '=');
    r := m;
    if o != -1 {
      r := m[a[..o] := a[o + 1..]];
      assert (got + TagOf(a))[..|got|] == got;
    } else {
      assert got + TagOf(a) == got;
    }
  }

  lemma LastSegment(s: string)
    requires Count(s) == 0
    ensures TagsIn(s) == TagOf(s)
  {
    CountPositive(s);
  }

  /** The loop of ParseTags: the separators are counted first, and exactly those are consumed. */
  method ParsePairs(stat: string) returns (m: map<string, string>)
    ensures m == ToMap(TagsIn(stat))
  {
    var s, n := stat, Count(stat);
    m := map[];
    ghost var got: seq<Tag> := [];
    while n > 0
      invariant n == Count(s) && got + TagsIn(s) == TagsIn(stat) && m == ToMap(got)
    {
      var i := Index(s, PREFIX);
      TakeSegment(s, n, got, TagsIn(stat));
      if i < 0 {
        break;
      }
      m := PutSegment(m, s[..i], got);
      got := got + TagOf(s[..i]);
      s := s[i + |PREFIX|..];
      n := n - 1;
    }
    LastSegment(s);
    m := PutSegment(m, s, got);
  }

  method ParseTags(stat: string) returns (name: string, tags: Option<map<string, string>>)
    ensures name == Parsed(stat).0
    ensures tags == if Parsed(stat).1 == None then None else Some(ToMap(Parsed(stat).1.value))
  {
    var line := RemoveStatValue(stat);
    var o := Index(line, PREFIX);
    if o == -1 {
      return line, None;
    }
    name := line[..o];
    var m := ParsePairs(line[o + |PREFIX|..]);
    tags := Some(m);
  }

  /** tags[i] = Tag{...}; i++, if the segment has an "=". */
  method StoreSegment(slots: array<Tag>, i: nat, a: string) returns (next: nat)
    requires i < slots.Length
    modifies slots
    ensures i <= next <= i + 1 && slots[..next] == old(slots[..i]) + TagOf(a)
  {
    var o := IndexByte(a, '=');
    next := i;
    if o != -1 {
      slots[i] := Tag(a[..o], a[o + 1..]);
      next := i + 1;
    }
  }

  /** The loop of ParseTagSet: n + 1 slots are enough, since each segment fills at most one. */
  method ParseSlots(stat: string) returns (r: seq<Tag>)
    ensures Sorted(r) && multiset(r) == multiset(TagsIn(stat))
  {
    var s, n := stat, Count(stat);
    var slots := new Tag[n + 1](_ => Tag("", ""));
    var i := 0;
    while n > 0
      invariant n == Count(s) && i + n < slots.Length && slots[..i] + TagsIn(s) == TagsIn(stat)
    {
      var m := Index(s, PREFIX);
      if m < 0 {
        break;
      }
      TakeSegment(s, n, slots[..i], TagsIn(stat));
      i := StoreSegment(slots, i, s[..m]);
      s := s[m + |PREFIX|..];
      n := n - 1;
    }
    i := StoreSegment(slots, i, s);
    assert slots[0..i] == slots[..i];
    Sort(slots, 0, i);
    r := slots[..i];
  }

  method ParseTagSet(stat: string) returns (name: string, tags: Option<seq<Tag>>)
    ensures name == Parsed(stat).0 && (tags == None <==> Parsed(stat).1 == None)
    ensures tags.Some? ==> Sorted(tags.value) && multiset(tags.value) == multiset(Parsed(stat).1.value)
  {
    var line := RemoveStatValue(stat);
    var o := Index(line, PREFIX);
    if o == -1 {
      return line, None;
    }
    name := line[..o];
    var r := ParseSlots(line[o + |PREFIX|..]);
    tags := Some(r);
  }

  /** Reordering tags keeps the keys. */
  lemma PermutedKeys(s: seq<Tag>, r: seq<Tag>)
    requires multiset(s) == multiset(r)
    ensures ToMap(s).Keys == ToMap(r).Keys
  {
    forall k
      ensures k in ToMap(s) <==> k in ToMap(r)
    {
      ToMapKeys(s, k);
      ToMapKeys(r, k);
      if i :| 0 <= i < |s| && s[i].key == k {
        assert s[i] in multiset(r);
        assert s[i] in r;
      }
      if i :| 0 <= i < |r| && r[i].key == k {
        assert r[i] in multiset(s);
        assert r[i] in s;
      }
    }
  }

  /**
   The parsers agree on every string: same name, same keys, and the same values whenever the keys of the
   segments are distinct.
   */
  method ParseBoth(stat: string)
    returns (name: string, tags: Option<map<string, string>>, setName: string, set_: Option<seq<Tag>>)
    ensures name == setName && (tags == None <==> set_ == None)
    ensures tags.Some? ==> ToMap(set_.value).Keys == tags.value.Keys
    ensures tags.Some? ==> Parsed(stat).1.Some?
    ensures tags.Some? && Distinct(Parsed(stat).1.value) ==> ToMap(set_.value) == tags.value
  {
    name, tags := ParseTags(stat);
    setName, set_ := ParseTagSet(stat);
    if tags.Some? {
      PermutedKeys(set_.value, Parsed(stat).1.value);
      if Distinct(Parsed(stat).1.value) {
        PermutedMap(Parsed(stat).1.value, set_.value);
      }
    }
  }

  /** A name or key that does not disturb the format. */
  predicate Plain(s: string) {
    ':' !in s && Index(s, PREFIX) < 0
  }

  predicate PlainTag(p: Tag) {
    Plain(p.key) && '=' !in p.key && Replaced(p.value) == p.value
  }

  predicate PlainTags(t: seq<Tag>) {
    forall i :: 0 <= i < |t| ==> PlainTag(t[i])
  }

  lemma NotAtFront(a: string, b: string)
    requires a != [] && !(PREFIX <= a) && (PREFIX <= b || (b != [] && b[0] == '='))
    ensures !(PREFIX <= a + b)
  {
    assert |PREFIX| == 3 && PREFIX[0] == '.' && PREFIX[1] == '_' && PREFIX[2] == '_';
    var c := a + b;
    assert |a| >= 3 ==> c[0] == a[0] && c[1] == a[1] && c[2] == a[2];
    assert |a| == 1 ==> c[1] == b[0];
    assert |a| == 2 ==> c[2] == b[0];
  }

  /** The separator cannot straddle the end of a string that has none of its own. */
  lemma {:induction false} FirstPrefix(a: string, b: string)
    requires Index(a, PREFIX) < 0 && PREFIX <= b
    ensures Index(a + b, PREFIX) == |a|
  {
    if a == [] {
      assert a + b == b;
    } else {
      assert (a + b)[1..] == a[1..] + b;
      FirstPrefix(a[1..], b);
      NotAtFront(a, b);
    }
  }

  /** A clean value holds no separator. */
  lemma {:induction false} ValueHasNone(v: string)
    requires Replaced(v) == v
    ensures Index(v, PREFIX) < 0 && ':' !in v && Index("=" + v, PREFIX) < 0
  {
    assert forall i :: 0 <= i < |v| ==> v[i] != '.' && v[i] != ':';
    if v != [] {
      assert Replaced(v[1..]) == v[1..];
      ValueHasNone(v[1..]);
      assert PREFIX[0] == '.';
    }
    assert ("=" + v)[1..] == v && PREFIX[0] == '.' && ("=" + v)[0] == '=';
  }

  /** Nor does "key=value" with such a key and a clean value. */
  lemma {:induction false} PairHasNone(k: string, v: string)
    requires Index(k, PREFIX) < 0 && Replaced(v) == v
    ensures Index(k + ("=" + v), PREFIX) < 0
  {
    ValueHasNone(v);
    if k == [] {
      assert k + ("=" + v) == "=" + v;
    } else {
      assert (k + ("=" + v))[1..] == k[1..] + ("=" + v);
      PairHasNone(k[1..], v);
      NotAtFront(k, "=" + v);
    }
  }

  function Pair(p: Tag): string {
    p.key + ("=" + p.value)
  }

  function Tail(t: seq<Tag>): string
    requires t != []
    decreases |t|, 0
  {
    Pair(t[0]) + Body(t[1..])
  }

  /** What follows the name in a serialized stat, and what follows its first separator. */
  function Body(t: seq<Tag>): string
    decreases |t|, 1
  {
    if t == [] then "" else PREFIX + Tail(t)
  }

  lemma {:induction false} SerializedIsBody(name: string, t: seq<Tag>)
    ensures Serialized(name, t) == name + Body(t)
    decreases t
  {
    if t != [] {
      SerializedIsBody(name + Piece(t[0]), t[1..]);
      assert Piece(t[0]) == PREFIX + Pair(t[0]);
      assert name + Piece(t[0]) + Body(t[1..]) == name + Body(t);
    }
  }

  lemma {:induction false} IndexByteIs(a: string, c: char, n: nat)
    requires n < |a| && a[n] == c && forall i :: 0 <= i < n ==> a[i] != c
    ensures IndexByte(a, c) == n
  {
    if n > 0 {
      IndexByteIs(a[1..], c, n - 1);
    }
  }

  lemma PairParses(p: Tag)
    requires PlainTag(p)
    ensures TagOf(Pair(p)) == [p]
  {
    var a := Pair(p);
    IndexByteIs(a, '=', |p.key|);
    assert a[..|p.key|] == p.key && a[|p.key| + 1..] == p.value;
  }

  lemma LastTail(t: seq<Tag>)
    requires |t| == 1 && Index(Pair(t[0]), PREFIX) < 0
    ensures TagsIn(Tail(t)) == TagOf(Pair(t[0]))
  {
    assert Tail(t) == Pair(t[0]);
  }

  lemma SplitsAt(s: string, a: string, rest: string)
    requires Index(s, PREFIX) == |a| && |a| + |PREFIX| <= |s| && s[..|a|] == a && s[|a| + |PREFIX|..] == rest
    ensures TagsIn(s) == TagOf(a) + TagsIn(rest)
  {
  }

  lemma Cuts(a: string, b: string, c: string)
    ensures (a + (b + c))[..|a|] == a && (a + (b + c))[|a| + |b|..] == c
  {
  }

  /** A first segment without separator is split off whole. */
  lemma Splits(a: string, rest: string)
    requires Index(a, PREFIX) < 0
    ensures TagsIn(a + (PREFIX + rest)) == TagOf(a) + TagsIn(rest)
  {
    FirstPrefix(a, PREFIX + rest);
    Cuts(a, PREFIX, rest);
    SplitsAt(a + (PREFIX + rest), a, rest);
  }

  lemma TailIs(t: seq<Tag>)
    requires |t| > 1
    ensures Tail(t) == Pair(t[0]) + (PREFIX + Tail(t[1..]))
  {
  }

  lemma FirstParses(t: seq<Tag>)
    requires |t| > 1 && Index(Pair(t[0]), PREFIX) < 0
    ensures TagsIn(Tail(t)) == TagOf(Pair(t[0])) + TagsIn(Tail(t[1..]))
  {
    TailIs(t);
    Splits(Pair(t[0]), Tail(t[1..]));
  }

  lemma PairStands(p: Tag)
    requires PlainTag(p)
    ensures Index(Pair(p), PREFIX) < 0 && TagOf(Pair(p)) == [p]
  {
    PairHasNone(p.key, p.value);
    PairParses(p);
  }

  /** Splitting a serialized tail gives back its tags. */
  lemma {:induction false} TailParses(t: seq<Tag>)
    requires t != [] && PlainTags(t)
    ensures TagsIn(Tail(t)) == t
  {
    PairStands(t[0]);
    if |t| == 1 {
      LastTail(t);
    } else {
      TailParses(t[1..]);
      FirstParses(t);
      assert t == [t[0]] + t[1..];
    }
  }

  lemma {:induction false} BodyHasNoColon(t: seq<Tag>)
    requires PlainTags(t)
    ensures ':' !in Body(t)
  {
    if t != [] {
      assert PlainTag(t[0]);
      ValueHasNone(t[0].value);
      BodyHasNoColon(t[1..]);
    }
  }

  /** The suffix of a wire line: nothing, or a colon and the rest of the line without another. */
  predicate WireSuffix(s: string) {
    s == [] || (s[0] == ':' && ':' !in s[1..])
  }

  lemma StripsSuffix(a: string, suffix: string)
    requires ':' !in a && WireSuffix(suffix)
    ensures StripValue(a + suffix) == a
  {
    var s := a + suffix;
    if suffix == [] {
      assert s == a;
    } else {
      assert s[|a| + 1..] == suffix[1..];
      LastColonIs(s, |a|);
    }
  }

  /** Parsing a serialized stat, as stored or as a wire line, gives back the name and the tags. */
  lemma ParsesSerialized(name: string, t: seq<Tag>, suffix: string)
    requires Plain(name) && PlainTags(t) && WireSuffix(suffix)
    ensures Parsed(Serialized(name, t) + suffix) == (name, if t == [] then None else Some(t))
  {
    SerializedIsBody(name, t);
    BodyHasNoColon(t);
    var s := name + Body(t);
    StripsSuffix(s, suffix);
    if t == [] {
      assert s == name;
    } else {
      FirstPrefix(name, Body(t));
      assert s[..|name|] == name && s[|name| + |PREFIX|..] == Tail(t);
      TailParses(t);
    }
  }

  /** Round trip: ParseTagSet inverts Serialize, and ParseTags gives the map of the set. */
  method RoundTrip(name: string, t: seq<Tag>, suffix: string)
    returns (parsedName: string, set_: Option<seq<Tag>>, mapName: string, tags: Option<map<string, string>>)
    requires Plain(name) && Strict(t) && PlainTags(t) && WireSuffix(suffix)
    ensures parsedName == mapName == name
    ensures set_ == if t == [] then None else Some(t)
    ensures tags == if t == [] then None else Some(ToMap(t))
  {
    var stat := Serialize(t, name);
    ParsesSerialized(name, t, suffix);
    parsedName, set_ := ParseTagSet(stat + suffix);
    mapName, tags := ParseTags(stat + suffix);
    if t != [] {
      StrictIsDistinct(t);
      SortedSet(t, set_.value);
      SameMapSameSet(set_.value, t);
    }
  }

  /** Serialize is injective on that domain: two stats with one key are one stat. */
  lemma SerializeInjective(n1: string, t1: seq<Tag>, n2: string, t2: seq<Tag>)
    requires Plain(n1) && PlainTags(t1) && Plain(n2) && PlainTags(t2)
    requires Serialized(n1, t1) == Serialized(n2, t2)
    ensures n1 == n2 && t1 == t2
  {
    ParsesSerialized(n1, t1, "");
    ParsesSerialized(n2, t2, "");
  }
}
