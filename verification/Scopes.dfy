/** Sub-scopes: names joined by dots and tags merged down the scopes, and the key a stat is stored under. */
module Scopes {
  import opened TagSort
  import opened TagSets
  import opened TagMerge
  import opened TagSerialize
  import opened TagParse

  /** A sub-scope's name and its tags, which are read-only and may be shared. */
  datatype Scope = Scope(name: string, tags: TagSet) {
    ghost predicate Valid()
      reads tags.data
    {
      tags.Valid() && Strict(tags.Tags())
    }

    /** The tags as a map. */
    ghost function Map(): map<string, string>
      requires Valid()
      reads tags.data
    {
      ToMap(tags.Tags())
    }
  }

  function JoinScopes(parent: string, child: string): string {
    parent + "." + child
  }

  /** The key of a stat with the given name and (clean) tags. */
  ghost function KeyOf(name: string, tags: map<string, string>): string {
    Serialized(name, SetOf(tags))
  }

  method NewSubScope(name: string, tags: map<string, string>) returns (s: Scope)
    ensures s.Valid() && fresh(s.tags.data) && s.name == name && s.Map() == Clean(tags)
  {
    var t := NewTagSet(tags);
    s := Scope(name, t);
  }

  method ScopeWithTags(s: Scope, name: string, tags: map<string, string>) returns (r: Scope)
    requires s.Valid()
    ensures s.tags.Tags() == old(s.tags.Tags()) && (r.tags == s.tags || fresh(r.tags.data))
    ensures r.Valid() && r.name == s.name + "." + name && r.Map() == s.Map() + Clean(tags)
  {
    var t := MergeTags(s.tags, tags);
    r := Scope(JoinScopes(s.name, name), t);
  }

  /** The key NewCounterWithTags asks the store for. */
  method CounterKey(s: Scope, name: string, tags: map<string, string>) returns (key: string)
    requires s.Valid()
    ensures key == KeyOf(s.name + "." + name, s.Map() + Clean(tags))
  {
    var t := MergeTags(s.tags, tags);
    SameMapSameSet(t.Tags(), SetOf(s.Map() + Clean(tags)));
    key := Serialize(t.Tags(), JoinScopes(s.name, name));
  }

  /** The key NewPerInstanceCounter asks the store for. */
  method PerInstanceKey(s: Scope, name: string, tags: map<string, string>) returns (key: string)
    requires s.Valid()
    ensures key == KeyOf(s.name + "." + name, PerInstance(s.Map() + Clean(tags)))
  {
    var t := MergePerInstanceTags(s.tags, tags);
    SameMapSameSet(t.Tags(), SetOf(PerInstance(s.Map() + Clean(tags))));
    key := Serialize(t.Tags(), JoinScopes(s.name, name));
  }

  /** One call of ScopeWithTags. */
  datatype Level = Level(name: string, tags: map<string, string>)

  /** A name and the names of the levels below it, outermost first, with dots between them. */
  function Dotted(name: string, levels: seq<Level>): string
    decreases levels
  {
    if levels == [] then name else name + "." + Dotted(levels[0].name, levels[1..])
  }

  lemma {:induction false} DottedExtended(name: string, levels: seq<Level>, l: Level)
    ensures Dotted(name, levels + [l]) == Dotted(name, levels) + "." + l.name
    decreases levels
  {
    assert (levels + [l])[0] == if levels == [] then l else levels[0];
    if levels == [] {
      assert (levels + [l])[1..] == [];
    } else {
      assert (levels + [l])[1..] == levels[1..] + [l];
      DottedExtended(levels[0].name, levels[1..], l);
    }
  }

  /** Its tags: each level overrides the ones before. */
  function Override(tags: map<string, string>, levels: seq<Level>): map<string, string> {
    if levels == [] then tags else Override(tags, levels[..|levels| - 1]) + Clean(levels[|levels| - 1].tags)
  }

  /** ScopeWithTags called level by level, for any depth; the scope started from is as it was. */
  method Nest(root: Scope, levels: seq<Level>) returns (s: Scope)
    requires root.Valid()
    ensures root.tags.Tags() == old(root.tags.Tags())
    ensures s.Valid() && s.name == Dotted(root.name, levels) && s.Map() == Override(root.Map(), levels)
  {
    s := root;
    for i := 0 to |levels|
      invariant s.Valid() && s.name == Dotted(root.name, levels[..i]) && s.Map() == Override(root.Map(), levels[..i])
    {
      assert levels[..i + 1][..i] == levels[..i] && levels[..i + 1][i] == levels[i];
      assert levels[..i + 1] == levels[..i] + [levels[i]];
      DottedExtended(root.name, levels[..i], levels[i]);
      s := ScopeWithTags(s, levels[i].name, levels[i].tags);
    }
    assert levels[..|levels|] == levels;
  }

  lemma CleanStays(tags: map<string, string>, more: map<string, string>)
    requires Clean(tags) == tags
    ensures Clean(tags + Clean(more)) == tags + Clean(more)
  {
    CleanIsClean(more);
    assert forall k :: k in Clean(more) ==> k in Clean(Clean(more));
    assert forall k :: k in tags ==> k in Clean(tags);
  }

  lemma {:induction false} OverrideIsClean(tags: map<string, string>, levels: seq<Level>)
    requires Clean(tags) == tags
    ensures Clean(Override(tags, levels)) == Override(tags, levels)
  {
    if levels != [] {
      OverrideIsClean(tags, levels[..|levels| - 1]);
      CleanStays(Override(tags, levels[..|levels| - 1]), levels[|levels| - 1].tags);
    }
  }

  /**
   Scopes nested to any depth resolve to the same key as one scope with the joined name and the tags
   overridden level by level, and as a stat of the store itself with the full name and tags.
   */
  method NestedScopes(name: string, tags: map<string, string>, levels: seq<Level>, stat: Level)
    returns (nested: string, flat: string, direct: string)
    ensures nested == flat == direct
    ensures nested == KeyOf(Dotted(name, levels + [stat]), Override(Clean(tags), levels + [stat]))
  {
    var joined, over := Dotted(name, levels), Override(Clean(tags), levels);
    DottedExtended(name, levels, stat);
    assert (levels + [stat])[..|levels|] == levels;
    CleanIsClean(tags);
    OverrideIsClean(Clean(tags), levels);
    CleanStays(over, stat.tags);
    var root := NewSubScope(name, tags);
    var inner := Nest(root, levels);
    nested := CounterKey(inner, stat.name, stat.tags);
    var one := NewSubScope(joined, over);
    flat := CounterKey(one, stat.name, stat.tags);
    direct := SerializeTags(JoinScopes(joined, stat.name), over + Clean(stat.tags));
  }

  /**
   Overriding before cleaning is the same as cleaning first if and only if the overriding map gives no
   empty value to a key that counts in the other: an empty value does not remove a tag of the parent.
   */
  lemma RawOverride(a: map<string, string>, b: map<string, string>)
    ensures Clean(a + b) == Clean(a) + Clean(b) <==> forall k :: k in Clean(a) && k in b ==> b[k] != ""
  {
    if k :| k in Clean(a) && k in b && b[k] == "" {
      assert k in Clean(a) + Clean(b) && k !in Clean(a + b);
    } else {
      assert Clean(a + b).Keys == (Clean(a) + Clean(b)).Keys;
    }
  }

  predicate PlainKeys(tags: map<string, string>) {
    forall k :: k in tags ==> Plain(k) && '=' !in k
  }

  lemma SetIsPlain(tags: map<string, string>)
    requires PlainKeys(Clean(tags))
    ensures PlainTags(SetOf(Clean(tags)))
  {
    var t := SetOf(Clean(tags));
    StrictIsDistinct(t);
    CleanIsClean(tags);
    forall i | 0 <= i < |t|
      ensures PlainTag(t[i])
    {
      ToMapHas(t, t[i]);
      assert t[i].key in Clean(Clean(tags));
    }
  }

  /**
   Two stats with plain names and tag keys are stored under one key if and only if their names and their
   tags, after cleaning, are the same.
   */
  lemma KeysTellStatsApart(n1: string, t1: map<string, string>, n2: string, t2: map<string, string>)
    requires Plain(n1) && Plain(n2) && PlainKeys(Clean(t1)) && PlainKeys(Clean(t2))
    ensures KeyOf(n1, Clean(t1)) == KeyOf(n2, Clean(t2)) <==> n1 == n2 && Clean(t1) == Clean(t2)
  {
    if KeyOf(n1, Clean(t1)) == KeyOf(n2, Clean(t2)) {
      SetIsPlain(t1);
      SetIsPlain(t2);
      SerializeInjective(n1, SetOf(Clean(t1)), n2, SetOf(Clean(t2)));
    }
  }
}
