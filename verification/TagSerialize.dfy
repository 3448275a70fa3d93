/** Serialize and SerializeTags: a stat name followed by ".__key=value" for each tag in key order. */
module TagSerialize {
  import opened ByteOrder
  import opened SortingNetworks
  import opened TagSort
  import opened TagSets
  import opened TagMerge

  const PREFIX: string := ".__"
  const SEP: string := "="

  function Piece(p: Tag): string {
    PREFIX + p.key + SEP + p.value
  }

  function Serialized(name: string, t: seq<Tag>): string
    decreases t
  {
    if t == [] then name else Serialized(name + Piece(t[0]), t[1..])
  }

  /** TagSet.Serialize */
  method Serialize(t: seq<Tag>, name: string) returns (r: string)
    ensures r == Serialized(name, t)
  {
    if |t| == 0 {
      return name;
    }
    r := name;
    for i := 0 to |t|
      invariant Serialized(r, t[i..]) == Serialized(name, t)
    {
      assert t[i..][0] == t[i] && t[i..][1..] == t[i + 1..];
      r := r + Piece(t[i]);
    }
  }

  /** Letter by letter: a stat with tags is the stat without the last one, and that tag. */
  lemma {:induction false} SerializedEnds(name: string, t: seq<Tag>)
    ensures
      Serialized(name, t) ==
        if t == [] then name
        else Serialized(name, t[..|t| - 1]) + ".__" + t[|t| - 1].key + "=" + t[|t| - 1].value
    decreases t
  {
    if |t| > 1 {
      SerializedEnds(name + Piece(t[0]), t[1..]);
      assert t[1..][..|t| - 2] == t[..|t| - 1][1..];
    }
  }

  lemma SetExtended(s: seq<Tag>, p: Tag)
    requires Strict(s) && p.key !in ToMap(s)
    ensures exists r :: Strict(r) && ToMap(r) == ToMap(s)[p.key := p.value]
  {
    StrictIsDistinct(s);
    AppendTag(s, p);
    LibrarySortedIsSorted(s + [p]);
    SortedSet(s + [p], LibrarySorted(s + [p]));
  }

  lemma {:induction false} SetExists(m: map<string, string>)
    ensures exists s :: Strict(s) && ToMap(s) == m
    decreases |m|
  {
    if m == map[] {
      assert Strict([]) && ToMap([]) == m;
    } else {
      var k :| k in m;
      SetExists(m - {k});
      var s :| Strict(s) && ToMap(s) == m - {k};
      SetExtended(s, Tag(k, m[k]));
      assert (m - {k})[k := m[k]] == m;
    }
  }

  /** The one TagSet of a map. */
  ghost function SetOf(m: map<string, string>): (s: seq<Tag>)
    ensures Strict(s) && ToMap(s) == m
  {
    SetExists(m);
    var s :| Strict(s) && ToMap(s) == m;
    s
  }

  /** What was collected from the tags map, sorted, is its TagSet. */
  lemma CollectedSet(got: seq<Tag>, tags: map<string, string>, s: seq<Tag>)
    requires Filled(got, map[], tags, {}) && multiset(s) == multiset(got) && Sorted(s)
    ensures s == SetOf(Clean(tags))
  {
    NothingTaken(map[], tags);
    assert map[] + Clean(tags) == Clean(tags);
    SortedSet(got, s);
    SameMapSameSet(s, SetOf(Clean(tags)));
  }

  lemma {:induction false} MapSize(s: seq<Tag>)
    requires Distinct(s)
    ensures |ToMap(s)| == |s|
  {
    if s != [] {
      MapSize(s[..|s| - 1]);
      ToMapKeys(s[..|s| - 1], s[|s| - 1].key);
    }
  }

  /** The number collected when the loop over the map ends. */
  lemma CollectedAll(got: seq<Tag>, tags: map<string, string>)
    requires Filled(got, map[], tags, {})
    ensures |got| == |Clean(tags)|
  {
    NothingTaken(map[], tags);
    assert map[] + Clean(tags) == Clean(tags);
    MapSize(got);
  }

  lemma TakenSize(tags: map<string, string>, todo: set<string>, k: string)
    requires k in todo
    ensures |Taken(tags, todo - {k})| == |Taken(tags, todo)| + if k in Clean(tags) then 1 else 0
  {
    if k in Clean(tags) {
      assert Taken(tags, todo - {k}) == Taken(tags, todo)[k := Clean(tags)[k]];
    } else {
      DropsOne(tags, todo, k);
    }
  }

  method CountValid(tags: map<string, string>) returns (numValid: nat)
    ensures numValid == |Clean(tags)|
  {
    var n: int := |tags|;
    var todo := tags.Keys;
    assert Taken(tags, tags.Keys) == map[];
    while todo != {}
      invariant todo <= tags.Keys && n == |Taken(tags, todo)| + |todo|
      decreases todo
    {
      var k :| k in todo;
      TakenSize(tags, todo, k);
      if k == "" || tags[k] == "" {
        n := n - 1;
      }
      todo := todo - {k};
    }
    NothingTaken(map[], tags);
    numValid := n;
  }

  /** One round of a collecting loop: what is collected grows by the tag of key k, if that counts. */
  ghost function Collect(got: seq<Tag>, tags: map<string, string>, k: string): seq<Tag>
    requires k in tags
  {
    if k != "" && tags[k] != "" then got + [Tag(k, Replaced(tags[k]))] else got
  }

  lemma Collects(got: seq<Tag>, tags: map<string, string>, todo: set<string>, k: string)
    requires Filled(got, map[], tags, todo) && k in todo && k in tags
    ensures Filled(Collect(got, tags, k), map[], tags, todo - {k})
  {
    if k != "" && tags[k] != "" {
      TakesOne(got, map[], tags, todo, Tag(k, Replaced(tags[k])));
    } else {
      DropsOne(tags, todo, k);
    }
  }

  lemma CollectedNothing(tags: map<string, string>)
    ensures Filled([], map[], tags, tags.Keys)
  {
    assert Taken(tags, tags.Keys) == map[];
  }

  /** With one tag that counts, the first one met is all of the set. */
  lemma OneLeft(tags: map<string, string>, todo: set<string>, t0: Tag)
    requires |Clean(tags)| == 1 && t0.key in Clean(tags) && t0.value == Clean(tags)[t0.key]
    ensures SetOf(Clean(tags)) == [t0]
  {
    OnlyKey(Clean(tags), t0.key);
    OneTag([t0]);
    assert Clean(tags) == map[t0.key := t0.value];
    SameMapSameSet([t0], SetOf(Clean(tags)));
  }

  method SerializeOne(name: string, tags: map<string, string>) returns (r: string)
    requires |Clean(tags)| == 1
    ensures r == Serialized(name, SetOf(Clean(tags)))
  {
    var t0 := Tag("", "");
    var todo := tags.Keys;
    ghost var got: seq<Tag> := [];
    CollectedNothing(tags);
    while todo != {}
      invariant todo <= tags.Keys && Filled(got, map[], tags, todo) && got == []
      decreases todo
    {
      var k :| k in todo;
      Collects(got, tags, todo, k);
      got := Collect(got, tags, k);
      todo := todo - {k};
      if k != "" && tags[k] != "" {
        t0 := NewTag(k, tags[k]);
        break;
      }
    }
    if got == [] {
      CollectedAll(got, tags);
      assert false;
    }
    OneLeft(tags, todo, t0);
    assert SetOf(Clean(tags))[1..] == [];
    r := name + Piece(t0);
  }

  /** t starts with the tags got, the newest first. */
  ghost predicate Newest(t: seq<Tag>, got: seq<Tag>) {
    forall m :: 0 <= m < |got| && m < |t| ==> t[m] == got[|got| - 1 - m]
  }

  lemma {:induction false} CollectedReversed(got: seq<Tag>, t: seq<Tag>)
    requires |t| == |got| && Newest(t, got)
    ensures multiset(t) == multiset(got)
  {
    if got != [] {
      assert got == got[..|got| - 1] + [got[|got| - 1]] && t == [t[0]] + t[1..];
      CollectedReversed(got[..|got| - 1], t[1..]);
    }
  }

  lemma MovesUp(t: seq<Tag>, got: seq<Tag>, p: Tag)
    requires t != [] && Newest(t, got)
    ensures Newest([p] + t[..|t| - 1], got + [p])
  {
  }

  lemma FilledPermuted(s: seq<Tag>, r: seq<Tag>, tags: map<string, string>)
    requires Filled(s, map[], tags, {}) && multiset(r) == multiset(s)
    ensures Filled(r, map[], tags, {})
  {
    PermutedMap(s, r);
  }

  /**
   The loop of the cases of two, three and four tags. The variables t0, t1, ... are the elements of t: each
   tag that counts is stored in the first after the others have moved up by one.
   */
  method CollectFew(tags: map<string, string>, n: nat) returns (t: seq<Tag>)
    requires |Clean(tags)| == n && n > 0
    ensures |t| == n && Filled(t, map[], tags, {})
  {
    t := seq(n, _ => Tag("", ""));
    var todo := tags.Keys;
    ghost var got: seq<Tag> := [];
    CollectedNothing(tags);
    while todo != {}
      invariant todo <= tags.Keys && Filled(got, map[], tags, todo) && |t| == n
      invariant Newest(t, got)
      decreases todo
    {
      var k :| k in todo;
      ghost var before := got;
      Collects(got, tags, todo, k);
      got := Collect(got, tags, k);
      todo := todo - {k};
      if k == "" || tags[k] == "" {
        continue;
      }
      var p := NewTag(k, tags[k]);
      MovesUp(t, before, p);
      t := [p] + t[..n - 1];
    }
    CollectedAll(got, tags);
    CollectedReversed(got, t);
    FilledPermuted(got, t, tags);
  }

  /** "If ti.Key > tj.Key, exchange them", as the next step of a network. */
  method Exchange(t: seq<Tag>, i: nat, j: nat, ghost net: Net) returns (r: seq<Tag>, ghost rest: Net)
    requires net.Cas? && net.i == i && net.j == j && Fits(net, |t|)
    ensures rest == net.rest && |r| == |t| && Fits(rest, |r|) && Run(AFTER, r, rest) == Run(AFTER, t, net)
  {
    r, rest := t, net.rest;
    if Less(t[j].key, t[i].key) {
      r := t[i := t[j]][j := t[i]];
    }
  }

  method OrderTwo(x: seq<Tag>) returns (t: seq<Tag>)
    requires |x| == 2 && Fits(NET2, 2)
    ensures t == Run(AFTER, x, NET2)
  {
    ghost var net;
    t, net := Exchange(x, 0, 1, NET2);
  }

  method OrderThree(x: seq<Tag>) returns (t: seq<Tag>)
    requires |x| == 3 && Fits(NET3, 3)
    ensures t == Run(AFTER, x, NET3)
  {
    ghost var net;
    t, net := Exchange(x, 1, 2, NET3);
    t, net := Exchange(t, 0, 2, net);
    t, net := Exchange(t, 0, 1, net);
  }

  method OrderFour(x: seq<Tag>) returns (t: seq<Tag>)
    requires |x| == 4 && Fits(NET4, 4)
    ensures t == Run(AFTER, x, NET4)
  {
    ghost var net;
    t, net := Exchange(x, 0, 1, NET4);
    t, net := Exchange(t, 2, 3, net);
    t, net := Exchange(t, 0, 2, net);
    t, net := Exchange(t, 1, 3, net);
    t, net := Exchange(t, 1, 2, net);
  }

  /** The few tags collected, put in order by the network for their number, are the TagSet. */
  lemma OrderedSet(got: seq<Tag>, tags: map<string, string>)
    requires Filled(got, map[], tags, {}) && 2 <= |got| <= 8
    ensures Fits(Network(|got|), |got|) && Run(AFTER, got, Network(|got|)) == SetOf(Clean(tags))
  {
    NetworkSorts(got);
    RunPermutes(AFTER, got, Network(|got|));
    CollectedSet(got, tags, Run(AFTER, got, Network(|got|)));
  }

  lemma SerializedOne(name: string, t: seq<Tag>)
    requires |t| == 1
    ensures Serialized(name, t) == name + Piece(t[0])
  {
    assert t[1..] == [];
  }

  lemma SerializedTwo(name: string, t: seq<Tag>)
    requires |t| == 2
    ensures Serialized(name, t) == name + Piece(t[0]) + Piece(t[1])
  {
    SerializedOne(name + Piece(t[0]), t[1..]);
  }

  lemma SerializedThree(name: string, t: seq<Tag>)
    requires |t| == 3
    ensures Serialized(name, t) == name + Piece(t[0]) + Piece(t[1]) + Piece(t[2])
  {
    SerializedTwo(name + Piece(t[0]), t[1..]);
  }

  lemma SerializedFour(name: string, t: seq<Tag>)
    requires |t| == 4
    ensures Serialized(name, t) == name + Piece(t[0]) + Piece(t[1]) + Piece(t[2]) + Piece(t[3])
  {
    SerializedThree(name + Piece(t[0]), t[1..]);
  }

  method SerializeTwo(name: string, tags: map<string, string>) returns (r: string)
    requires |Clean(tags)| == 2
    ensures r == Serialized(name, SetOf(Clean(tags)))
  {
    var got := CollectFew(tags, 2);
    OrderedSet(got, tags);
    var t := OrderTwo(got);
    SerializedTwo(name, t);
    r := name + Piece(t[0]) + Piece(t[1]);
  }

  method SerializeThree(name: string, tags: map<string, string>) returns (r: string)
    requires |Clean(tags)| == 3
    ensures r == Serialized(name, SetOf(Clean(tags)))
  {
    var got := CollectFew(tags, 3);
    OrderedSet(got, tags);
    var t := OrderThree(got);
    SerializedThree(name, t);
    r := name + Piece(t[0]) + Piece(t[1]) + Piece(t[2]);
  }

  method SerializeFour(name: string, tags: map<string, string>) returns (r: string)
    requires |Clean(tags)| == 4
    ensures r == Serialized(name, SetOf(Clean(tags)))
  {
    var got := CollectFew(tags, 4);
    OrderedSet(got, tags);
    var t := OrderFour(got);
    SerializedFour(name, t);
    r := name + Piece(t[0]) + Piece(t[1]) + Piece(t[2]) + Piece(t[3]);
  }

  /** The default case: as many as there are, sorted by the library. */
  method SerializeMany(name: string, tags: map<string, string>) returns (r: string)
    ensures r == Serialized(name, SetOf(Clean(tags)))
  {
    var pairs := new Tag[|tags|](_ => Tag("", ""));
    var n := Fill(pairs, 0, 0, tags);
    assert map[] + Clean(tags) == Clean(tags);
    ghost var got := pairs[0..n];
    LibrarySort(pairs, 0, n);
    SortedSet(got, pairs[0..n]);
    SameMapSameSet(pairs[0..n], SetOf(Clean(tags)));
    r := Serialize(pairs[0..n], name);
  }

  /**
   SerializeTags: whatever the number of tags and the order in which each of its loops meets them, the
   string is that of the TagSet of the map.
   */
  method SerializeTags(name: string, tags: map<string, string>) returns (r: string)
    ensures r == Serialized(name, SetOf(Clean(tags)))
  {
    var numValid := CountValid(tags);
    match numValid {
      case 0 =>
        assert Clean(tags) == map[];
        SameMapSameSet(SetOf(Clean(tags)), []);
        r := name;
      case 1 => r := SerializeOne(name, tags);
      case 2 => r := SerializeTwo(name, tags);
      case 3 => r := SerializeThree(name, tags);
      case 4 => r := SerializeFour(name, tags);
      case _ => r := SerializeMany(name, tags);
    }
  }

  /** With two clean tags, the one whose key comes first byte by byte is written first. */
  lemma TwoTags(name: string, p: Tag, q: Tag, k: nat)
    requires SmallerAt(p.key, q.key, k) && p.key != "" && p.value != "" && q.value != ""
    requires Replaced(p.value) == p.value && Replaced(q.value) == q.value
    ensures
      Serialized(name, SetOf(Clean(map[p.key := p.value, q.key := q.value]))) ==
        name + ".__" + p.key + "=" + p.value + ".__" + q.key + "=" + q.value
  {
    var tags, s := map[p.key := p.value, q.key := q.value], [p, q];
    LessIsByteOrder(p.key, q.key);
    Irreflexive(p.key);
    OneTag([p]);
    assert s[..1] == [p] && Clean(tags) == tags;
    SameMapSameSet(SetOf(Clean(tags)), s);
    SerializedEnds(name, s);
    SerializedEnds(name, [p]);
    assert [p][..0] == [];
  }

  /** The fast form and the simple one agree: SerializeTags is NewTagSet followed by Serialize. */
  method FastAndSimple(name: string, tags: map<string, string>) returns (fast: string, simple: string)
    ensures fast == simple == Serialized(name, SetOf(Clean(tags)))
  {
    fast := SerializeTags(name, tags);
    var t := NewTagSet(tags);
    SameMapSameSet(t.Tags(), SetOf(Clean(tags)));
    simple := Serialize(t.Tags(), name);
  }
}
