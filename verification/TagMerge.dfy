/** Building and merging TagSets: NewTagSet, MergeTags and MergePerInstanceTags. */
module TagMerge {
  import opened ByteOrder
  import opened TagSort
  import opened TagSets

  ghost predicate HasKey(s: seq<Tag>, k: string) {
    exists i :: 0 <= i < |s| && s[i].key == k
  }

  /** The merge of two strictly sorted sequences; where keys agree the second wins. */
  function Union(s: seq<Tag>, r: seq<Tag>): seq<Tag> {
    if s == [] then r
    else if r == [] then s
    else if s[0].key == r[0].key then [r[0]] + Union(s[1..], r[1..])
    else if Less(s[0].key, r[0].key) then [s[0]] + Union(s[1..], r)
    else [r[0]] + Union(s, r[1..])
  }

  lemma KeysAfter(s: seq<Tag>, k: string)
    requires Strict(s) && s != [] && (Less(k, s[0].key) || k == s[0].key)
    ensures !HasKey(s[1..], k) && (k != s[0].key ==> !HasKey(s, k))
  {
    forall i | 0 <= i < |s| && (i > 0 || k != s[0].key)
      ensures s[i].key != k
    {
      Irreflexive(k);
      if i > 0 && k != s[0].key {
        Transitive(k, s[0].key, s[i].key);
      }
    }
  }

  lemma HasKeyCons(s: seq<Tag>, k: string)
    requires s != []
    ensures HasKey(s, k) <==> k == s[0].key || HasKey(s[1..], k)
  {
    if HasKey(s, k) && k != s[0].key {
      var i :| 0 <= i < |s| && s[i].key == k;
      assert s[1..][i - 1].key == k;
    }
  }

  lemma {:induction false} UnionHas(s: seq<Tag>, r: seq<Tag>, x: Tag)
    requires Strict(s) && Strict(r)
    ensures x in Union(s, r) <==> x in r || (x in s && !HasKey(r, x.key))
  {
    if s != [] && r != [] {
      assert s == [s[0]] + s[1..] && r == [r[0]] + r[1..];
      assert HasKey(r, x.key) <==> x.key == r[0].key || HasKey(r[1..], x.key) by {
        HasKeyCons(r, x.key);
      }
      if s[0].key == r[0].key {
        UnionHas(s[1..], r[1..], x);
        KeysAfter(s, s[0].key);
        assert x in s[1..] ==> HasKey(s[1..], x.key);
      } else if Less(s[0].key, r[0].key) {
        UnionHas(s[1..], r, x);
        KeysAfter(r, s[0].key);
      } else {
        Total(s[0].key, r[0].key);
        UnionHas(s, r[1..], x);
        KeysAfter(s, r[0].key);
        assert x in s ==> HasKey(s, x.key);
      }
    }
  }

  lemma ConsStrict(x: Tag, s: seq<Tag>)
    requires Strict(s) && forall y :: y in s ==> Less(x.key, y.key)
    ensures Strict([x] + s)
  {
  }

  lemma AfterHead(s: seq<Tag>, r: seq<Tag>, h: Tag, y: Tag)
    requires Strict(s) && Strict(r) && s != [] && r != []
    requires h == if Less(s[0].key, r[0].key) then s[0] else r[0]
    requires if Less(s[0].key, r[0].key) then y in s[1..] || y in r
             else if Less(r[0].key, s[0].key) then y in s || y in r[1..] else y in s[1..] || y in r[1..]
    ensures Less(h.key, y.key)
  {
    Total(s[0].key, r[0].key);
    if y in s && s[0] != h && y != s[0] && s[0].key != h.key {
      Transitive(h.key, s[0].key, y.key);
    }
    if y in r && r[0] != h && y != r[0] && r[0].key != h.key {
      Transitive(h.key, r[0].key, y.key);
    }
  }

  lemma {:induction false} UnionStrict(s: seq<Tag>, r: seq<Tag>)
    requires Strict(s) && Strict(r)
    ensures Strict(Union(s, r))
  {
    if s != [] && r != [] {
      var h := if Less(s[0].key, r[0].key) then s[0] else r[0];
      var s', r' := if Less(r[0].key, s[0].key) then s else s[1..], if Less(s[0].key, r[0].key) then r else r[1..];
      Total(s[0].key, r[0].key);
      Irreflexive(s[0].key);
      if Less(s[0].key, r[0].key) {
        Asymmetric(s[0].key, r[0].key);
      }
      UnionStrict(s', r');
      forall y | y in Union(s', r')
        ensures Less(h.key, y.key)
      {
        UnionHas(s', r', y);
        AfterHead(s, r, h, y);
      }
      ConsStrict(h, Union(s', r'));
    }
  }

  /** The union stands for the first map overridden by the second. */
  lemma UnionMap(s: seq<Tag>, r: seq<Tag>)
    requires Strict(s) && Strict(r)
    ensures Strict(Union(s, r)) && ToMap(Union(s, r)) == ToMap(s) + ToMap(r)
  {
    UnionStrict(s, r);
    StrictIsDistinct(s);
    StrictIsDistinct(r);
    StrictIsDistinct(Union(s, r));
    var m := ToMap(s) + ToMap(r);
    forall x: Tag
      ensures
        (x.key in ToMap(Union(s, r)) && ToMap(Union(s, r))[x.key] == x.value) <==>
        (x.key in m && m[x.key] == x.value)
    {
      ToMapHas(s, x);
      ToMapHas(r, x);
      ToMapHas(Union(s, r), x);
      UnionHas(s, r, x);
      ToMapKeys(r, x.key);
    }
    SameTagsSameMap(ToMap(Union(s, r)), m);
  }

  /** acc, and then the union of what is left of s from i and of r from j, is the whole union. */
  predicate Merged(acc: seq<Tag>, s: seq<Tag>, i: nat, r: seq<Tag>, j: nat)
    requires i <= |s| && j <= |r|
  {
    acc + Union(s[i..], r[j..]) == Union(s, r)
  }

  /** One step of the merge moves the smaller head over. */
  lemma MergesOne(acc: seq<Tag>, s: seq<Tag>, i: nat, r: seq<Tag>, j: nat)
    requires i < |s| && j < |r| && Merged(acc, s, i, r, j)
    ensures
      if s[i].key == r[j].key then Merged(acc + [r[j]], s, i + 1, r, j + 1)
      else if Less(s[i].key, r[j].key) then Merged(acc + [s[i]], s, i + 1, r, j)
      else Merged(acc + [r[j]], s, i, r, j + 1)
  {
    assert s[i..][1..] == s[i + 1..] && r[j..][1..] == r[j + 1..];
  }

  lemma MergesRest(acc: seq<Tag>, s: seq<Tag>, i: nat, r: seq<Tag>, j: nat)
    requires i <= |s| && j <= |r| && (i == |s| || j == |r|) && Merged(acc, s, i, r, j)
    ensures acc + s[i..] + r[j..] == Union(s, r)
  {
  }

  /** a[lo..hi] still holds s2 from j on. */
  predicate Unread(a: seq<Tag>, lo: nat, hi: nat, s2: seq<Tag>, j: nat) {
    |s2| == hi - lo && hi <= |a| && forall m :: j <= m < hi - lo ==> a[lo + m] == s2[m]
  }

  lemma WriteBehind(a: seq<Tag>, lo: nat, hi: nat, s2: seq<Tag>, j: nat, k: nat, x: Tag)
    requires Unread(a, lo, hi, s2, j) && k < |a| && k < lo + j
    ensures Unread(a[k := x], lo, hi, s2, j) && a[k := x][..k + 1] == a[..k] + [x]
  {
  }

  lemma UnreadRest(a: seq<Tag>, lo: nat, hi: nat, s2: seq<Tag>, j: nat)
    requires Unread(a, lo, hi, s2, j) && j <= |s2|
    ensures a[lo + j..hi] == s2[j..]
  {
  }

  /** How far the merge of t and s2, which lay in a[lo..hi], has come: i of the one, j of the other, k written. */
  predicate Progress(a: seq<Tag>, t: seq<Tag>, i: nat, lo: nat, hi: nat, s2: seq<Tag>, j: nat, k: nat) {
    && |t| <= lo <= hi <= |a| && |s2| == hi - lo
    && i <= |t| && j <= |s2| && k <= i + j && k <= |a|
    && Unread(a, lo, hi, s2, j) && Merged(a[..k], t, i, s2, j)
  }

  lemma Progresses(a: seq<Tag>, t: seq<Tag>, i: nat, lo: nat, hi: nat, s2: seq<Tag>, j: nat, k: nat)
    requires Progress(a, t, i, lo, hi, s2, j, k) && i < |t| && j < |s2|
    ensures k < |a| && a[lo + j] == s2[j]
    ensures
      if t[i].key == s2[j].key then Progress(a[k := s2[j]], t, i + 1, lo, hi, s2, j + 1, k + 1)
      else if Less(t[i].key, s2[j].key) then Progress(a[k := t[i]], t, i + 1, lo, hi, s2, j, k + 1)
      else Progress(a[k := s2[j]], t, i, lo, hi, s2, j + 1, k + 1)
  {
    MergesOne(a[..k], t, i, s2, j);
    WriteBehind(a, lo, hi, s2, j, k, s2[j]);
    WriteBehind(a, lo, hi, s2, j, k, t[i]);
  }

  /** One turn of the loop: the smaller head is written; of two equal ones s2's. */
  method MergeStep(s1: TagSet, a: array<Tag>, lo: nat, hi: nat, i: nat, j: nat, k: nat, ghost s2: seq<Tag>)
    returns (nextI: nat, nextJ: nat)
    requires s1.Valid() && s1.data != a && i < s1.n && j < hi - lo && Progress(a[..], s1.Tags(), i, lo, hi, s2, j, k)
    modifies a
    ensures Progress(a[..], s1.Tags(), nextI, lo, hi, s2, nextJ, k + 1)
    ensures i <= nextI && j <= nextJ && i + j < nextI + nextJ
  {
    ghost var before, t := a[..], s1.Tags();
    Progresses(before, t, i, lo, hi, s2, j, k);
    nextI, nextJ := i, j;
    assert t[i] == s1.data[i];
    if s1.data[i].key == a[lo + j].key {
      a[k] := a[lo + j];
      nextI, nextJ := i + 1, j + 1;
    } else if Less(s1.data[i].key, a[lo + j].key) {
      a[k] := s1.data[i];
      nextI := i + 1;
    } else {
      a[k] := a[lo + j];
      nextJ := j + 1;
    }
    assert a[..] == before[k := a[k]];
  }

  /** The two copies after the loop: what is left of s1, then what is left of s2. */
  method CopyRest(rest: seq<Tag>, a: array<Tag>, k: nat, from: nat, hi: nat) returns (end: nat)
    requires from <= hi <= a.Length && k + |rest| + (hi - from) <= a.Length
    requires rest == [] || from == hi
    modifies a
    ensures end == k + |rest| + (hi - from) && a[..end] == old(a[..k]) + rest + old(a[from..hi])
  {
    end := k;
    if 0 < |rest| {
      var n := Copy(a, end, rest);
      end := end + n;
    }
    if from < hi {
      var n := Copy(a, end, a[from..hi]);
      end := end + n;
    }
  }

  /**
   mergeTagSets, with s2 the slice a[lo..hi] of the scratch slice it writes to, at or after the room for s1:
   every element of s2 is read before its place is written, whatever slots are unused after it.
   */
  method MergeTagSets(s1: TagSet, a: array<Tag>, lo: nat, hi: nat) returns (r: TagSet)
    requires s1.Valid() && s1.data != a && s1.n <= lo <= hi <= a.Length
    modifies a
    ensures r.Valid() && r.data == a && r.Tags() == Union(old(s1.Tags()), old(a[lo..hi]))
  {
    ghost var t, s2 := s1.Tags(), a[lo..hi];
    var i, j, k := 0, 0, 0;
    while i < s1.n && j < hi - lo && k < a.Length
      invariant Progress(a[..], t, i, lo, hi, s2, j, k)
      decreases s1.n - i + hi - lo - j
    {
      i, j := MergeStep(s1, a, lo, hi, i, j, k, s2);
      k := k + 1;
    }
    UnreadRest(a[..], lo, hi, s2, j);
    MergesRest(a[..k], t, i, s2, j);
    assert a[lo + j..hi] == a[..][lo + j..hi] && s1.data[i..s1.n] == t[i..];
    k := CopyRest(s1.data[i..s1.n], a, k, lo + j, hi);
    r := TagSet(a, k);
  }

  /** The tags of `tags` that count and whose keys are not in todo. */
  function Taken(tags: map<string, string>, todo: set<string>): map<string, string> {
    map k | k in Clean(tags) && k !in todo :: Clean(tags)[k]
  }

  lemma AppendTag(s: seq<Tag>, p: Tag)
    requires Distinct(s) && p.key !in ToMap(s)
    ensures Distinct(s + [p]) && ToMap(s + [p]) == ToMap(s)[p.key := p.value]
  {
    assert (s + [p])[..|s|] == s;
    forall i | 0 <= i < |s|
      ensures s[i].key != p.key
    {
      ToMapKeys(s, s[i].key);
    }
  }

  lemma TakesOne(s: seq<Tag>, first: map<string, string>, tags: map<string, string>, todo: set<string>, p: Tag)
    requires Distinct(s) && ToMap(s) == first + Taken(tags, todo) && first.Keys !! Clean(tags).Keys
    requires p.key in todo && p.key in Clean(tags) && p.value == Clean(tags)[p.key]
    ensures Distinct(s + [p]) && ToMap(s + [p]) == first + Taken(tags, todo - {p.key})
  {
    AppendTag(s, p);
    assert Taken(tags, todo)[p.key := p.value] == Taken(tags, todo - {p.key});
  }

  lemma DropsOne(tags: map<string, string>, todo: set<string>, k: string)
    requires k !in Clean(tags)
    ensures Taken(tags, todo - {k}) == Taken(tags, todo)
  {
  }

  /** The tags so far are the first ones and those taken from the map. */
  ghost predicate Filled(s: seq<Tag>, first: map<string, string>, tags: map<string, string>, todo: set<string>) {
    Distinct(s) && first.Keys !! Clean(tags).Keys && ToMap(s) == first + Taken(tags, todo)
  }

  /** One round of the loops over a tags map: a cleaned tag is appended, an empty one dropped. */
  method FillOne(a: array<Tag>, lo: nat, hi: nat, tags: map<string, string>, k: string,
                 ghost first: map<string, string>, ghost todo: set<string>)
    returns (end: nat)
    requires lo <= hi < a.Length && k in tags && k in todo && Filled(a[lo..hi], first, tags, todo)
    modifies a
    ensures hi <= end <= hi + 1 && Filled(a[lo..end], first, tags, todo - {k})
  {
    ghost var s := a[lo..hi];
    end := hi;
    if k != "" && tags[k] != "" {
      var p := NewTag(k, tags[k]);
      a[end] := p;
      end := end + 1;
      TakesOne(s, first, tags, todo, p);
      assert a[lo..end] == s + [p];
    } else {
      DropsOne(tags, todo, k);
    }
  }

  lemma NothingTaken(first: map<string, string>, tags: map<string, string>)
    ensures first + Taken(tags, tags.Keys) == first && Taken(tags, {}) == Clean(tags)
  {
  }

  /** The loops over a tags map, in any order: cleaned tags go after a[lo..hi]; empty ones are dropped. */
  method Fill(a: array<Tag>, lo: nat, hi: nat, tags: map<string, string>) returns (end: nat)
    requires lo <= hi && hi + |tags| <= a.Length
    requires Distinct(a[lo..hi]) && ToMap(a[lo..hi]).Keys !! Clean(tags).Keys
    modifies a
    ensures hi <= end <= a.Length
    ensures Distinct(a[lo..end]) && ToMap(a[lo..end]) == old(ToMap(a[lo..hi])) + Clean(tags)
  {
    ghost var first := ToMap(a[lo..hi]);
    end := hi;
    var todo := tags.Keys;
    NothingTaken(first, tags);
    while todo != {}
      invariant todo <= tags.Keys && hi <= end && end + |todo| <= hi + |tags|
      invariant Filled(a[lo..end], first, tags, todo)
      decreases todo
    {
      var k :| k in todo;
      end := FillOne(a, lo, end, tags, k, first, todo);
      todo := todo - {k};
    }
  }

  method NewTagSet(tags: map<string, string>) returns (r: TagSet)
    ensures r.Valid() && fresh(r.data) && Strict(r.Tags()) && ToMap(r.Tags()) == Clean(tags)
    ensures forall k :: k in ToMap(r.Tags()) <==> k in tags && k != "" && tags[k] != ""
  {
    var a := new Tag[|tags|](_ => Tag("", ""));
    var n := Fill(a, 0, 0, tags);
    ghost var unsorted := a[0..n];
    Sort(a, 0, n);
    SortedSet(unsorted, a[0..n]);
    assert map[] + Clean(tags) == Clean(tags) && a[0..n] == a[..n];
    r := TagSet(a, n);
  }

  /** The receiver keeps its tags, and the result is a new set or the receiver itself. */
  twostate predicate Merges(t: TagSet, new r: TagSet, m: map<string, string>)
    requires t.Valid()
    reads t.data, r.data
  {
    && t.Tags() == old(t.Tags()) && r.Valid() && (r == t || fresh(r.data))
    && Strict(r.Tags()) && ToMap(r.Tags()) == m
  }

  /** The end of both merges: sort the new tags in the scratch slice, then merge the receiver into it. */
  method SortAndMerge(t: TagSet, scratch: array<Tag>, hi: nat) returns (r: TagSet)
    requires t.Valid() && Strict(t.Tags()) && t.data != scratch
    requires t.n <= hi <= scratch.Length && Distinct(scratch[t.n..hi])
    modifies scratch
    ensures r.Valid() && r.data == scratch && Strict(r.Tags())
    ensures ToMap(r.Tags()) == old(ToMap(t.Tags())) + old(ToMap(scratch[t.n..hi]))
  {
    ghost var unsorted := scratch[t.n..hi];
    Sort(scratch, t.n, hi);
    ghost var s2 := scratch[t.n..hi];
    SortedSet(unsorted, s2);
    UnionMap(t.Tags(), s2);
    if t.n == 0 {
      assert scratch[0..hi] == scratch[..hi];
      return TagSet(scratch, hi);
    }
    r := MergeTagSets(t, scratch, t.n, hi);
  }

  lemma OnlyKey(tags: map<string, string>, k: string)
    requires |tags| == 1 && k in tags
    ensures tags.Keys == {k}
  {
    assert |tags.Keys - {k}| == 0;
  }

  method MergeOneTag(t: TagSet, tags: map<string, string>) returns (r: TagSet)
    requires t.Valid() && Strict(t.Tags()) && |tags| == 1
    ensures Merges(t, r, ToMap(t.Tags()) + Clean(tags))
  {
    var k :| k in tags;
    OnlyKey(tags, k);
    var p := NewTag(k, tags[k]);
    assert |p.value| == |tags[k]|;
    if p.key == "" || p.value == "" {
      assert Clean(tags) == map[];
      return t;
    }
    r := Insert(t, p);
    assert Clean(tags) == map[k := p.value];
  }

  /** MergeTags: the set of the receiver's map overridden by the given tags. */
  method MergeTags(t: TagSet, tags: map<string, string>) returns (r: TagSet)
    requires t.Valid() && Strict(t.Tags())
    ensures Merges(t, r, ToMap(t.Tags()) + Clean(tags))
  {
    match |tags| {
      case 0 =>
        assert Clean(tags) == map[];
        r := t;
      case 1 =>
        r := MergeOneTag(t, tags);
      case _ =>
        var scratch := new Tag[t.n + |tags|](_ => Tag("", ""));
        var hi := Fill(scratch, t.n, t.n, tags);
        assert map[] + Clean(tags) == Clean(tags);
        r := SortAndMerge(t, scratch, hi);
    }
  }

  /** The map with the per-instance tag "_f" set to "i" unless it is there already. */
  function PerInstance(m: map<string, string>): map<string, string> {
    if "_f" in m then m else m["_f" := "i"]
  }

  lemma OneTag(s: seq<Tag>)
    requires |s| == 1
    ensures Distinct(s) && ToMap(s) == map[s[0].key := s[0].value]
  {
    assert s[..0] == [];
  }

  /** Whether or not the default tag was put first, the merge gives the per-instance map. */
  lemma DefaultLeaves(t: seq<Tag>, tags: map<string, string>)
    ensures
      var given := "_f" in ToMap(t) || ("_f" in tags && tags["_f"] != "");
      ToMap(t) + ((if given then map[] else map["_f" := "i"]) + Clean(tags)) == PerInstance(ToMap(t) + Clean(tags))
  {
    assert "_f" in Clean(tags) <==> "_f" in tags && tags["_f"] != "";
  }

  method MergePerInstanceTags(t: TagSet, tags: map<string, string>) returns (r: TagSet)
    requires t.Valid() && Strict(t.Tags())
    ensures Merges(t, r, PerInstance(ToMap(t.Tags()) + Clean(tags)))
    ensures "_f" in ToMap(r.Tags())
    ensures
      ToMap(r.Tags())["_f"] ==
        if "_f" in Clean(tags) then Clean(tags)["_f"]
        else if "_f" in ToMap(t.Tags()) then ToMap(t.Tags())["_f"] else "i"
  {
    var has := Contains(t, "_f");
    if |tags| == 0 {
      assert ToMap(t.Tags()) + Clean(tags) == ToMap(t.Tags());
      if has {
        return t;
      }
      r := Insert(t, Tag("_f", "i"));
      return;
    }
    var scratch := new Tag[t.n + |tags| + 1](_ => Tag("", ""));
    var hi := t.n;
    if !has && ("_f" !in tags || tags["_f"] == "") {
      scratch[hi] := Tag("_f", "i");
      hi := hi + 1;
      OneTag(scratch[t.n..hi]);
    }
    DefaultLeaves(t.Tags(), tags);
    var end := Fill(scratch, t.n, hi, tags);
    r := SortAndMerge(t, scratch, end);
  }
}
