/** Tags and TagSet.Sort: sorting networks for up to eight tags, the library sort for more. */
module TagSort {
  import opened ByteOrder
  import opened SortingNetworks

  datatype Tag = Tag(key: string, value: string)

  /** t[i].Key > t[j].Key */
  const AFTER: (Tag, Tag) -> bool := (x: Tag, y: Tag) => Less(y.key, x.key)

  function AtLeast(key: string): Tag -> bool {
    (x: Tag) => !Less(x.key, key)
  }

  ghost predicate Sorted(s: seq<Tag>) {
    forall i, j :: 0 <= i < j < |s| ==> !Less(s[j].key, s[i].key)
  }

  lemma AtLeastIsThreshold(key: string)
    ensures Threshold(AFTER, AtLeast(key))
  {
    forall x: Tag, y: Tag
      ensures Less(y.key, x.key) && !Less(y.key, key) ==> !Less(x.key, key)
      ensures !Less(y.key, x.key) && !Less(x.key, key) ==> !Less(y.key, key)
    {
      if Less(y.key, x.key) && Less(x.key, key) {
        Transitive(y.key, x.key, key);
      }
      if !Less(y.key, x.key) && !Less(x.key, key) {
        NotAfter(key, x.key, y.key);
      }
    }
  }

  /** Every network of Sort leaves the keys in non-decreasing order. */
  lemma NetworkSorts(s: seq<Tag>)
    requires 2 <= |s| <= 8
    ensures Fits(Network(|s|), |s|) && Sorted(Run(AFTER, s, Network(|s|)))
  {
    SortsBits(Bits(AtLeast(""), s));
    var r := Run(AFTER, s, Network(|s|));
    forall i, j | 0 <= i < j < |r|
      ensures !Less(r[j].key, r[i].key)
    {
      Irreflexive(r[i].key);
      var f := AtLeast(r[i].key);
      AtLeastIsThreshold(r[i].key);
      ZeroOne(AFTER, f, s, Network(|s|));
      SortsBits(Bits(f, s));
      assert Bits(f, r)[i] ==> Bits(f, r)[j];
    }
  }

  /** s with the stretch of n from lo replaced by what the network makes of it. */
  ghost function Placed(s: seq<Tag>, lo: nat, n: nat, net: Net): seq<Tag>
    requires lo + n <= |s| && Fits(net, n)
  {
    s[..lo] + Run(AFTER, s[lo..lo + n], net) + s[lo + n..]
  }

  /** TagSet.cas on the slice of n tags from lo; `net` is the part of the network from this cas on. */
  method Cas(a: array<Tag>, lo: nat, n: nat, i: nat, j: nat, ghost net: Net) returns (ghost rest: Net)
    requires i < j < n && lo + n <= a.Length
    requires net.Cas? && net.i == i && net.j == j && Fits(net, n)
    modifies a
    ensures rest == net.rest && Fits(rest, n) && Placed(a[..], lo, n, rest) == Placed(old(a[..]), lo, n, net)
  {
    ghost var before := a[..];
    if Less(a[lo + j].key, a[lo + i].key) {
      a[lo + i], a[lo + j] := a[lo + j], a[lo + i];
    }
    rest := net.rest;
    assert a[..][lo..lo + n] == Swap(AFTER, before[lo..lo + n], i, j);
    assert a[..][..lo] == before[..lo] && a[..][lo + n..] == before[lo + n..];
  }

  /** Four consecutive calls of cas. */
  method Cas4(
      a: array<Tag>, lo: nat, n: nat, i0: nat, j0: nat, i1: nat, j1: nat, i2: nat, j2: nat, i3: nat, j3: nat,
      ghost net: Net)
    returns (ghost rest: Net)
    requires lo + n <= a.Length && Fits(net, n)
    requires net.Cas? && net.i == i0 && net.j == j0
    requires net.rest.Cas? && net.rest.i == i1 && net.rest.j == j1
    requires net.rest.rest.Cas? && net.rest.rest.i == i2 && net.rest.rest.j == j2
    requires net.rest.rest.rest.Cas? && net.rest.rest.rest.i == i3 && net.rest.rest.rest.j == j3
    modifies a
    ensures rest == net.rest.rest.rest.rest && Fits(rest, n)
    ensures Placed(a[..], lo, n, rest) == Placed(old(a[..]), lo, n, net)
  {
    rest := Cas(a, lo, n, i0, j0, net);
    rest := Cas(a, lo, n, i1, j1, rest);
    rest := Cas(a, lo, n, i2, j2, rest);
    rest := Cas(a, lo, n, i3, j3, rest);
  }

  /** Five consecutive calls of cas. */
  method Cas5(
      a: array<Tag>, lo: nat, n: nat, i0: nat, j0: nat, i1: nat, j1: nat, i2: nat, j2: nat, i3: nat, j3: nat,
      i4: nat, j4: nat, ghost net: Net)
    returns (ghost rest: Net)
    requires lo + n <= a.Length && Fits(net, n)
    requires net.Cas? && net.i == i0 && net.j == j0
    requires net.rest.Cas? && net.rest.i == i1 && net.rest.j == j1
    requires net.rest.rest.Cas? && net.rest.rest.i == i2 && net.rest.rest.j == j2
    requires net.rest.rest.rest.Cas? && net.rest.rest.rest.i == i3 && net.rest.rest.rest.j == j3
    requires net.rest.rest.rest.rest.Cas? && net.rest.rest.rest.rest.i == i4 && net.rest.rest.rest.rest.j == j4
    modifies a
    ensures rest == net.rest.rest.rest.rest.rest && Fits(rest, n)
    ensures Placed(a[..], lo, n, rest) == Placed(old(a[..]), lo, n, net)
  {
    rest := Cas(a, lo, n, i0, j0, net);
    rest := Cas(a, lo, n, i1, j1, rest);
    rest := Cas(a, lo, n, i2, j2, rest);
    rest := Cas(a, lo, n, i3, j3, rest);
    rest := Cas(a, lo, n, i4, j4, rest);
  }

  method SortTwo(a: array<Tag>, lo: nat)
    requires lo + 2 <= a.Length && Fits(NET2, 2)
    modifies a
    ensures a[..] == Placed(old(a[..]), lo, 2, NET2)
  {
    ghost var net := NET2;
    net := Cas(a, lo, 2, 0, 1, net);
    assert a[..] == Placed(a[..], lo, 2, Done);
  }

  method SortThree(a: array<Tag>, lo: nat)
    requires lo + 3 <= a.Length && Fits(NET3, 3)
    modifies a
    ensures a[..] == Placed(old(a[..]), lo, 3, NET3)
  {
    ghost var net := NET3;
    net := Cas(a, lo, 3, 1, 2, net);
    net := Cas(a, lo, 3, 0, 2, net);
    net := Cas(a, lo, 3, 0, 1, net);
    assert a[..] == Placed(a[..], lo, 3, Done);
  }

  method SortFour(a: array<Tag>, lo: nat)
    requires lo + 4 <= a.Length && Fits(NET4, 4)
    modifies a
    ensures a[..] == Placed(old(a[..]), lo, 4, NET4)
  {
    ghost var net := NET4;
    net := Cas5(a, lo, 4, 0, 1, 2, 3, 0, 2, 1, 3, 1, 2, net);
    assert a[..] == Placed(a[..], lo, 4, Done);
  }

  method SortFive(a: array<Tag>, lo: nat)
    requires lo + 5 <= a.Length && Fits(NET5, 5)
    modifies a
    ensures a[..] == Placed(old(a[..]), lo, 5, NET5)
  {
    ghost var net := NET5;
    net := Cas5(a, lo, 5, 0, 1, 3, 4, 2, 4, 2, 3, 0, 3, net);
    net := Cas4(a, lo, 5, 0, 2, 1, 4, 1, 3, 1, 2, net);
    assert a[..] == Placed(a[..], lo, 5, Done);
  }

  /** The second half of the network for six. */
  method MergeSix(a: array<Tag>, lo: nat)
    requires lo + 6 <= a.Length && Fits(MERGE6, 6)
    modifies a
    ensures a[..] == Placed(old(a[..]), lo, 6, MERGE6)
  {
    ghost var net := MERGE6;
    net := Cas4(a, lo, 6, 0, 3, 1, 4, 2, 5, 2, 4, net);
    net := Cas(a, lo, 6, 1, 3, net);
    net := Cas(a, lo, 6, 2, 3, net);
    assert a[..] == Placed(a[..], lo, 6, Done);
  }

  method SortSix(a: array<Tag>, lo: nat)
    requires lo + 6 <= a.Length && Fits(NET6, 6)
    modifies a
    ensures a[..] == Placed(old(a[..]), lo, 6, NET6)
  {
    ghost var net := NET6;
    net := Cas4(a, lo, 6, 1, 2, 0, 2, 0, 1, 4, 5, net);
    net := Cas(a, lo, 6, 3, 5, net);
    net := Cas(a, lo, 6, 3, 4, net);
    MergeSix(a, lo);
  }

  /** The second half of the network for seven. */
  method MergeSeven(a: array<Tag>, lo: nat)
    requires lo + 7 <= a.Length && Fits(MERGE7, 7)
    modifies a
    ensures a[..] == Placed(old(a[..]), lo, 7, MERGE7)
  {
    ghost var net := MERGE7;
    net := Cas4(a, lo, 7, 0, 4, 0, 3, 1, 5, 2, 6, net);
    net := Cas4(a, lo, 7, 2, 5, 1, 3, 2, 4, 2, 3, net);
    assert a[..] == Placed(a[..], lo, 7, Done);
  }

  method SortSeven(a: array<Tag>, lo: nat)
    requires lo + 7 <= a.Length && Fits(NET7, 7)
    modifies a
    ensures a[..] == Placed(old(a[..]), lo, 7, NET7)
  {
    ghost var net := NET7;
    net := Cas4(a, lo, 7, 1, 2, 0, 2, 0, 1, 3, 4, net);
    net := Cas4(a, lo, 7, 5, 6, 3, 5, 4, 6, 4, 5, net);
    MergeSeven(a, lo);
  }

  /** The second half of the network for eight. */
  method MergeEight(a: array<Tag>, lo: nat)
    requires lo + 8 <= a.Length && Fits(MERGE8, 8)
    modifies a
    ensures a[..] == Placed(old(a[..]), lo, 8, MERGE8)
  {
    ghost var net := MERGE8;
    net := Cas5(a, lo, 8, 0, 4, 1, 5, 1, 4, 2, 6, 3, 7, net);
    net := Cas4(a, lo, 8, 3, 6, 2, 4, 3, 5, 3, 4, net);
    assert a[..] == Placed(a[..], lo, 8, Done);
  }

  method SortEight(a: array<Tag>, lo: nat)
    requires lo + 8 <= a.Length && Fits(NET8, 8)
    modifies a
    ensures a[..] == Placed(old(a[..]), lo, 8, NET8)
  {
    ghost var net := NET8;
    net := Cas5(a, lo, 8, 0, 1, 2, 3, 0, 2, 1, 3, 1, 2, net);
    net := Cas5(a, lo, 8, 4, 5, 6, 7, 4, 6, 5, 7, 5, 6, net);
    MergeEight(a, lo);
  }

  function Inserted(s: seq<Tag>, x: Tag): seq<Tag> {
    if s == [] || Less(x.key, s[0].key) then [x] + s else [s[0]] + Inserted(s[1..], x)
  }

  lemma {:induction false} InsertedHas(s: seq<Tag>, x: Tag)
    ensures multiset(Inserted(s, x)) == multiset(s) + multiset{x}
  {
    if s != [] && !Less(x.key, s[0].key) {
      InsertedHas(s[1..], x);
      assert s == [s[0]] + s[1..];
    }
  }

  lemma {:induction false} InsertedIsSorted(s: seq<Tag>, x: Tag)
    requires Sorted(s)
    ensures Sorted(Inserted(s, x))
  {
    if s != [] && !Less(x.key, s[0].key) {
      InsertedIsSorted(s[1..], x);
      var r := Inserted(s[1..], x);
      forall k | 0 <= k < |r|
        ensures !Less(r[k].key, s[0].key)
      {
        InsertedHas(s[1..], x);
        assert r[k] in multiset(r);
        if r[k] != x {
          assert r[k] in multiset(s[1..]);
        }
      }
    } else if s != [] {
      Asymmetric(x.key, s[0].key);
      forall k | 1 <= k < |s|
        ensures !Less(s[k].key, x.key)
      {
        NotAfter(x.key, s[0].key, s[k].key);
      }
    }
  }

  function LibrarySorted(s: seq<Tag>): seq<Tag> {
    if s == [] then [] else Inserted(LibrarySorted(s[1..]), s[0])
  }

  lemma {:induction false} LibrarySortedIsSorted(s: seq<Tag>)
    ensures Sorted(LibrarySorted(s)) && multiset(LibrarySorted(s)) == multiset(s) && |LibrarySorted(s)| == |s|
  {
    if s != [] {
      LibrarySortedIsSorted(s[1..]);
      InsertedIsSorted(LibrarySorted(s[1..]), s[0]);
      InsertedHas(LibrarySorted(s[1..]), s[0]);
      assert s == [s[0]] + s[1..];
      assert |multiset(LibrarySorted(s))| == |multiset(s)|;
    }
  }

  method InOrder(s: seq<Tag>) returns (r: seq<Tag>)
    ensures Sorted(r) && multiset(r) == multiset(s) && |r| == |s|
  {
    r := LibrarySorted(s);
    LibrarySortedIsSorted(s);
  }

  /** Writes s to a[lo..]. */
  method Store(a: array<Tag>, lo: nat, s: seq<Tag>)
    requires lo + |s| <= a.Length
    modifies a
    ensures a[lo..lo + |s|] == s && a[..lo] == old(a[..lo]) && a[lo + |s|..] == old(a[lo + |s|..])
  {
    forall k | 0 <= k < |s| {
      a[lo + k] := s[k];
    }
  }

  /** sort.Sort: the contract of the library, a sorted permutation; callers rely on nothing else. */
  method LibrarySort(a: array<Tag>, lo: nat, hi: nat)
    requires lo <= hi <= a.Length
    modifies a
    ensures Sorted(a[lo..hi]) && multiset(a[lo..hi]) == multiset(old(a[lo..hi]))
    ensures a[..lo] == old(a[..lo]) && a[hi..] == old(a[hi..])
  {
    var s := InOrder(a[lo..hi]);
    Store(a, lo, s);
  }

  lemma NetworkPlaced(s: seq<Tag>, lo: nat, n: nat, r: seq<Tag>)
    requires 2 <= n <= 8 && lo + n <= |s| && Fits(Network(n), n)
    requires r == Placed(s, lo, n, Network(n))
    ensures |r| == |s| && Sorted(r[lo..lo + n]) && multiset(r[lo..lo + n]) == multiset(s[lo..lo + n])
    ensures r[..lo] == s[..lo] && r[lo + n..] == s[lo + n..]
  {
    NetworkSorts(s[lo..lo + n]);
    RunPermutes(AFTER, s[lo..lo + n], Network(n));
    assert r[lo..lo + n] == Run(AFTER, s[lo..lo + n], Network(n));
  }

  /** TagSet.Sort on the slice a[lo..hi]. */
  method Sort(a: array<Tag>, lo: nat, hi: nat)
    requires lo <= hi <= a.Length
    modifies a
    ensures Sorted(a[lo..hi]) && multiset(a[lo..hi]) == multiset(old(a[lo..hi]))
    ensures a[..lo] == old(a[..lo]) && a[hi..] == old(a[hi..])
  {
    ghost var before := a[..];
    ghost var n := hi - lo;
    if 2 <= n <= 8 {
      SortsBits(seq(n, _ => false));
    }
    match hi - lo {
      case 0 => return;
      case 1 => return;
      case 2 => SortTwo(a, lo);
      case 3 => SortThree(a, lo);
      case 4 => SortFour(a, lo);
      case 5 => SortFive(a, lo);
      case 6 => SortSix(a, lo);
      case 7 => SortSeven(a, lo);
      case 8 => SortEight(a, lo);
      case _ =>
        LibrarySort(a, lo, hi);
        return;
    }
    NetworkPlaced(before, lo, n, a[..]);
    assert a[lo..hi] == a[..][lo..hi] && before[lo..hi] == old(a[lo..hi]);
  }

  /** Keys strictly increasing: the shape of every TagSet. */
  ghost predicate Strict(s: seq<Tag>) {
    forall i, j :: 0 <= i < j < |s| ==> Less(s[i].key, s[j].key)
  }

  lemma StrictFirst(s: seq<Tag>, r: seq<Tag>)
    requires Strict(s) && Strict(r) && s != [] && r != []
    requires forall x :: x in s <==> x in r
    ensures s[0] == r[0]
  {
    assert s[0] in s && r[0] in r;
    var i :| 0 <= i < |r| && r[i] == s[0];
    var j :| 0 <= j < |s| && s[j] == r[0];
    if i > 0 && j > 0 {
      Asymmetric(s[0].key, r[0].key);
    }
  }

  lemma StrictTail(s: seq<Tag>, x: Tag)
    requires Strict(s) && s != []
    ensures x in s[1..] <==> x in s && x != s[0]
  {
    Irreflexive(s[0].key);
    assert s == [s[0]] + s[1..];
  }

  /** With distinct keys the sorted result is the only one there is. */
  lemma {:induction false} StrictUnique(s: seq<Tag>, r: seq<Tag>)
    requires Strict(s) && Strict(r)
    requires forall x :: x in s <==> x in r
    ensures s == r
  {
    if s == [] {
      assert forall x :: x !in r;
      assert forall k :: 0 <= k < |r| ==> r[k] in r;
    } else {
      assert s[0] in r;
      StrictFirst(s, r);
      forall x
        ensures x in s[1..] <==> x in r[1..]
      {
        StrictTail(s, x);
        StrictTail(r, x);
      }
      StrictUnique(s[1..], r[1..]);
      assert s == [s[0]] + s[1..] && r == [r[0]] + r[1..];
    }
  }

  lemma SortedDistinctIsStrict(s: seq<Tag>)
    requires Sorted(s) && forall i, j :: 0 <= i < j < |s| ==> s[i].key != s[j].key
    ensures Strict(s)
  {
    forall i, j | 0 <= i < j < |s|
      ensures Less(s[i].key, s[j].key)
    {
      Total(s[i].key, s[j].key);
    }
  }
}
