/** TagSets as strictly sorted sequences, and the maps they stand for. */
module TagSets {
  import opened ByteOrder
  import opened TagSort

  /** The map a sequence of tags stands for; of equal keys the last counts, as in successive map updates. */
  function ToMap(s: seq<Tag>): map<string, string> {
    if s == [] then map[] else ToMap(s[..|s| - 1])[s[|s| - 1].key := s[|s| - 1].value]
  }

  ghost predicate Distinct(s: seq<Tag>) {
    forall i, j :: 0 <= i < j < |s| ==> s[i].key != s[j].key
  }

  lemma {:induction false} ToMapKeys(s: seq<Tag>, k: string)
    ensures k in ToMap(s) <==> exists i :: 0 <= i < |s| && s[i].key == k
  {
    if s != [] {
      ToMapKeys(s[..|s| - 1], k);
      if k in ToMap(s[..|s| - 1]) {
        var i :| 0 <= i < |s| - 1 && s[..|s| - 1][i].key == k;
        assert s[i].key == k;
      } else {
        assert forall i :: 0 <= i < |s| - 1 ==> s[..|s| - 1][i] == s[i];
      }
    }
  }

  /** With distinct keys the map holds exactly the tags of the sequence. */
  lemma {:induction false} ToMapHas(s: seq<Tag>, x: Tag)
    requires Distinct(s)
    ensures x in s <==> x.key in ToMap(s) && ToMap(s)[x.key] == x.value
  {
    if s != [] {
      var init, last := s[..|s| - 1], s[|s| - 1];
      assert s == init + [last];
      ToMapHas(init, x);
      if x.key == last.key && x.key in ToMap(init) {
        ToMapKeys(init, x.key);
      }
      if x in init && x.key == last.key {
        ToMapKeys(init, x.key);
      }
    }
  }

  lemma StrictIsDistinct(s: seq<Tag>)
    requires Strict(s)
    ensures Distinct(s)
  {
    forall i, j | 0 <= i < j < |s|
      ensures s[i].key != s[j].key
    {
      Irreflexive(s[i].key);
    }
  }

  /** Two maps that hold the same tags are equal. */
  lemma SameTagsSameMap(a: map<string, string>, b: map<string, string>)
    requires forall x: Tag :: (x.key in a && a[x.key] == x.value) <==> (x.key in b && b[x.key] == x.value)
    ensures a == b
  {
    forall k
      ensures k in a <==> k in b
      ensures k in a ==> a[k] == b[k]
    {
      if k in a {
        var x := Tag(k, a[k]);
        assert x.key in b && b[x.key] == x.value;
      }
      if k in b {
        var x := Tag(k, b[k]);
        assert x.key in a && a[x.key] == x.value;
      }
    }
  }

  lemma {:induction false} OnceEach(s: seq<Tag>, x: Tag)
    requires Distinct(s)
    ensures multiset(s)[x] <= 1
  {
    if s != [] {
      OnceEach(s[..|s| - 1], x);
      assert s == s[..|s| - 1] + [s[|s| - 1]];
      if x == s[|s| - 1] {
        assert x !in s[..|s| - 1];
      }
    }
  }

  lemma TwiceInPrefix(r: seq<Tag>, i: nat, j: nat)
    requires i < j < |r| && r[i] == r[j]
    ensures multiset(r)[r[i]] >= 2
  {
    assert r == r[..j] + [r[j]] + r[j + 1..];
    assert r[i] in r[..j];
  }

  lemma PermutedDistinct(s: seq<Tag>, r: seq<Tag>)
    requires Distinct(s) && multiset(r) == multiset(s)
    ensures Distinct(r)
  {
    forall i, j | 0 <= i < j < |r|
      ensures r[i].key != r[j].key
    {
      assert r[i] in multiset(r) && r[j] in multiset(r);
      assert r[i] in s && r[j] in s;
      var m :| 0 <= m < |s| && s[m] == r[i];
      var n :| 0 <= n < |s| && s[n] == r[j];
      if m == n {
        OnceEach(s, r[i]);
        TwiceInPrefix(r, i, j);
      }
    }
  }

  /** A permutation of distinct tags stands for the same map. */
  lemma PermutedMap(s: seq<Tag>, r: seq<Tag>)
    requires Distinct(s) && multiset(r) == multiset(s)
    ensures Distinct(r) && ToMap(r) == ToMap(s)
  {
    PermutedDistinct(s, r);
    forall x: Tag
      ensures (x.key in ToMap(r) && ToMap(r)[x.key] == x.value) <==> (x.key in ToMap(s) && ToMap(s)[x.key] == x.value)
    {
      ToMapHas(s, x);
      ToMapHas(r, x);
      assert x in r <==> x in multiset(r);
      assert x in s <==> x in multiset(s);
    }
    SameTagsSameMap(ToMap(r), ToMap(s));
  }

  /** A TagSet is determined by its map. */
  lemma SameMapSameSet(s: seq<Tag>, r: seq<Tag>)
    requires Strict(s) && Strict(r) && ToMap(s) == ToMap(r)
    ensures s == r
  {
    StrictIsDistinct(s);
    StrictIsDistinct(r);
    forall x
      ensures x in s <==> x in r
    {
      ToMapHas(s, x);
      ToMapHas(r, x);
    }
    StrictUnique(s, r);
  }

  /** Sorting distinct tags gives the TagSet of their map. */
  lemma SortedSet(s: seq<Tag>, r: seq<Tag>)
    requires Distinct(s) && multiset(r) == multiset(s) && Sorted(r)
    ensures Strict(r) && ToMap(r) == ToMap(s)
  {
    PermutedMap(s, r);
    SortedDistinctIsStrict(r);
  }

  predicate Invalid(c: char) {
    c == '.' || c == ':' || c == '|'
  }

  /** What ReplaceChars makes of a value: every invalid character becomes an underscore. */
  function Replaced(v: string): (r: string)
    ensures |r| == |v|
    ensures forall i :: 0 <= i < |v| ==> r[i] == if Invalid(v[i]) then '_' else v[i]
  {
    seq(|v|, i requires 0 <= i < |v| => if Invalid(v[i]) then '_' else v[i])
  }

  /** The value is copied only when the first invalid character is met. */
  method ReplaceChars(s: string) returns (r: string)
    ensures r == Replaced(s)
    ensures |r| == |s| && forall i :: 0 <= i < |s| ==> r[i] == if s[i] in ".:|" then '_' else s[i]
  {
    var buf: array?<char> := null;
    for i := 0 to |s|
      invariant buf == null ==> forall k :: 0 <= k < i ==> !Invalid(s[k])
      invariant buf != null ==> fresh(buf) && buf.Length == |s|
      invariant buf != null ==> forall k :: 0 <= k < |s| ==> buf[k] == if k < i && Invalid(s[k]) then '_' else s[k]
    {
      if Invalid(s[i]) {
        if buf == null {
          buf := new char[|s|](k requires 0 <= k < |s| => s[k]);
        }
        buf[i] := '_';
      }
    }
    if buf == null {
      return s;
    }
    r := buf[..];
  }

  method NewTag(key: string, value: string) returns (p: Tag)
    ensures p == Tag(key, Replaced(value))
  {
    var v := ReplaceChars(value);
    p := Tag(key, v);
  }

  /** The tags that count: non-empty keys and values, the values cleaned. */
  function Clean(tags: map<string, string>): map<string, string> {
    map k | k in tags && k != "" && tags[k] != "" :: Replaced(tags[k])
  }

  lemma CleanIsClean(tags: map<string, string>)
    ensures Clean(Clean(tags)) == Clean(tags)
  {
    forall k | k in Clean(tags)
      ensures Replaced(Replaced(tags[k])) == Replaced(tags[k]) && Replaced(tags[k]) != ""
    {
      assert |Replaced(tags[k])| == |tags[k]|;
    }
  }

  /** A TagSet: a Go slice, the first n elements of an array that other TagSets and other owners may hold too. */
  datatype TagSet = TagSet(data: array<Tag>, n: nat) {
    predicate Valid() {
      n <= data.Length
    }

    function Tags(): seq<Tag>
      requires Valid()
      reads data
    {
      data[..n]
    }
  }

  /** TagSet.Search: the first place whose key is not before `key`. */
  method Search(t: TagSet, key: string) returns (i: nat)
    requires t.Valid() && Strict(t.Tags())
    ensures i <= t.n
    ensures forall k :: 0 <= k < i ==> Less(t.Tags()[k].key, key)
    ensures forall k :: i <= k < t.n ==> !Less(t.Tags()[k].key, key)
  {
    ghost var s := t.Tags();
    i := 0;
    var j := t.n;
    while i < j
      invariant i <= j <= t.n
      invariant forall k :: 0 <= k < i ==> Less(s[k].key, key)
      invariant forall k :: j <= k < t.n ==> !Less(s[k].key, key)
    {
      var h := (i + j) / 2;
      assert s[h] == t.data[h];
      if Less(t.data[h].key, key) {
        forall k | 0 <= k < h
          ensures Less(s[k].key, key)
        {
          Transitive(s[k].key, s[h].key, key);
        }
        i := h + 1;
      } else {
        forall k | h < k < t.n
          ensures !Less(s[k].key, key)
        {
          if Less(s[k].key, key) {
            Transitive(s[h].key, s[k].key, key);
          }
        }
        j := h;
      }
    }
  }

  lemma NotThere(t: seq<Tag>, i: nat, key: string)
    requires Strict(t) && i <= |t| && (i < |t| ==> t[i].key != key)
    requires forall k :: 0 <= k < i ==> Less(t[k].key, key)
    requires forall k :: i <= k < |t| ==> !Less(t[k].key, key)
    ensures forall k :: i <= k < |t| ==> Less(key, t[k].key)
    ensures key !in ToMap(t)
  {
    Irreflexive(key);
    if i < |t| {
      Total(key, t[i].key);
      forall k | i < k < |t|
        ensures Less(key, t[k].key)
      {
        Transitive(key, t[i].key, t[k].key);
      }
    }
    ToMapKeys(t, key);
  }

  method Contains(t: TagSet, key: string) returns (found: bool)
    requires t.Valid() && Strict(t.Tags())
    ensures found <==> key in ToMap(t.Tags())
  {
    ToMapKeys(t.Tags(), key);
    if t.n == 0 {
      return false;
    }
    var i := Search(t, key);
    Irreflexive(key);
    assert i < t.n ==> t.Tags()[i] == t.data[i];
    found := i < t.n && t.data[i].key == key;
    if !found {
      NotThere(t.Tags(), i, key);
    }
  }

  /** Go's copy into a[k..]. */
  method Copy(a: array<Tag>, k: nat, src: seq<Tag>) returns (n: nat)
    requires k <= a.Length
    modifies a
    ensures n == if a.Length - k < |src| then a.Length - k else |src|
    ensures a[..] == old(a[..k]) + src[..n] + old(a[k + n..])
  {
    n := if a.Length - k < |src| then a.Length - k else |src|;
    forall m | 0 <= m < n {
      a[k + m] := src[m];
    }
  }

  /** A copy of the set with another value at place i. */
  method CopyWith(t: TagSet, i: nat, value: string) returns (r: TagSet)
    requires t.Valid() && i < t.n
    ensures r.Valid() && fresh(r.data) && r.Tags() == t.Tags()[i := Tag(t.Tags()[i].key, value)]
  {
    var a := new Tag[t.n](_ => Tag("", ""));
    var copied := Copy(a, 0, t.Tags());
    assert a[..] == t.Tags();
    a[i] := Tag(a[i].key, value);
    r := TagSet(a, t.n);
  }

  /** A copy of the set with p put in before place i. */
  method CopyAround(t: TagSet, i: nat, p: Tag) returns (r: TagSet)
    requires t.Valid() && i <= t.n
    ensures r.Valid() && fresh(r.data) && r.Tags() == t.Tags()[..i] + [p] + t.Tags()[i..]
  {
    ghost var s := t.Tags();
    var a := new Tag[t.n + 1](_ => Tag("", ""));
    var copied := Copy(a, 0, t.data[..i]);
    assert a[..i] == s[..i];
    a[i] := p;
    assert a[..i + 1] == s[..i] + [p];
    assert t.data[i..t.n] == s[i..];
    copied := Copy(a, i + 1, t.data[i..t.n]);
    r := TagSet(a, t.n + 1);
  }

  lemma InsertedOver(t: seq<Tag>, i: nat, p: Tag)
    requires Strict(t) && i < |t| && t[i].key == p.key
    ensures Strict(t[i := p]) && ToMap(t[i := p]) == ToMap(t)[p.key := p.value]
  {
    var r := t[i := p];
    StrictIsDistinct(t);
    StrictIsDistinct(r);
    forall x: Tag
      ensures (x.key in ToMap(r) && ToMap(r)[x.key] == x.value) <==>
              (x.key in ToMap(t)[p.key := p.value] && ToMap(t)[p.key := p.value][x.key] == x.value)
    {
      ToMapHas(t, x);
      ToMapHas(r, x);
      if x in t && x.key != p.key {
        var k :| 0 <= k < |t| && t[k] == x;
        assert r[k] == x;
      }
      if x in r && x.key != p.key {
        var k :| 0 <= k < |r| && r[k] == x;
        assert t[k] == x;
      }
      assert r[i] == p;
      if x in r && x.key == p.key {
        var k :| 0 <= k < |r| && r[k] == x;
      }
    }
    SameTagsSameMap(ToMap(r), ToMap(t)[p.key := p.value]);
  }

  lemma InsertedIsStrict(t: seq<Tag>, i: nat, p: Tag)
    requires Strict(t) && i <= |t|
    requires forall k :: 0 <= k < i ==> Less(t[k].key, p.key)
    requires forall k :: i <= k < |t| ==> Less(p.key, t[k].key)
    ensures Strict(t[..i] + [p] + t[i..])
  {
    var r := t[..i] + [p] + t[i..];
    forall m, n | 0 <= m < n < |r|
      ensures Less(r[m].key, r[n].key)
    {
      assert r[m] == if m < i then t[m] else if m == i then p else t[m - 1];
      assert r[n] == if n < i then t[n] else if n == i then p else t[n - 1];
    }
  }

  lemma AddedOne(t: seq<Tag>, r: seq<Tag>, p: Tag)
    requires Distinct(t) && p.key !in ToMap(t) && multiset(r) == multiset(t + [p])
    ensures ToMap(r) == ToMap(t)[p.key := p.value]
  {
    var s := t + [p];
    assert s[..|s| - 1] == t;
    forall i | 0 <= i < |t|
      ensures t[i].key != p.key
    {
      ToMapKeys(t, t[i].key);
    }
    PermutedMap(s, r);
  }

  lemma InsertedNew(t: seq<Tag>, i: nat, p: Tag)
    requires Strict(t) && i <= |t| && p.key !in ToMap(t)
    requires forall k :: 0 <= k < i ==> Less(t[k].key, p.key)
    requires forall k :: i <= k < |t| ==> Less(p.key, t[k].key)
    ensures var r := t[..i] + [p] + t[i..]; Strict(r) && ToMap(r) == ToMap(t)[p.key := p.value]
  {
    InsertedIsStrict(t, i, p);
    StrictIsDistinct(t);
    assert multiset(t[..i] + [p] + t[i..]) == multiset(t + [p]) by {
      assert t == t[..i] + t[i..];
    }
    AddedOne(t, t[..i] + [p] + t[i..], p);
  }

  /**
   TagSet.Insert: the set of the map with p's key mapped to p's value, in a new array unless nothing changes.
   The receiver, which other scopes may share, keeps its tags.
   */
  method Insert(t: TagSet, p: Tag) returns (r: TagSet)
    requires t.Valid() && Strict(t.Tags())
    ensures r.Valid() && (r == t || fresh(r.data)) && t.Tags() == old(t.Tags())
    ensures Strict(r.Tags()) && ToMap(r.Tags()) == ToMap(t.Tags())[p.key := p.value]
  {
    if t.n == 0 {
      var a := new Tag[1](_ => p);
      assert a[..1] == [p] && [p][..0] == [];
      return TagSet(a, 1);
    }
    var i := Search(t, p.key);
    if i < t.n && t.data[i].key == p.key {
      InsertedOver(t.Tags(), i, p);
      if t.data[i].value == p.value {
        assert t.Tags()[i := p] == t.Tags();
        return t;
      }
      r := CopyWith(t, i, p.value);
      return;
    }
    NotThere(t.Tags(), i, p.key);
    InsertedNew(t.Tags(), i, p);
    r := CopyAround(t, i, p);
  }
}
