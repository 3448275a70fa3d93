/**
 The sorting networks of TagSet.Sort, and the 0-1 principle: a network of compare-and-swaps that sorts
 every choice of zeros and ones sorts everything.
 */
module SortingNetworks {
  /** A network: its compare-and-swaps, in the order they are made. */
  datatype Net = Done | Cas(i: nat, j: nat, rest: Net)

  predicate Fits(net: Net, n: nat) {
    net.Cas? ==> net.i < net.j < n && Fits(net.rest, n)
  }

  /** The two change places when the first is after the second. */
  function Swap<T>(after: (T, T) -> bool, s: seq<T>, i: nat, j: nat): (r: seq<T>)
    requires i < j < |s|
    ensures |r| == |s|
  {
    if after(s[i], s[j]) then s[i := s[j]][j := s[i]] else s
  }

  function Run<T>(after: (T, T) -> bool, s: seq<T>, net: Net): (r: seq<T>)
    requires Fits(net, |s|)
    ensures |r| == |s|
    decreases net
  {
    match net
    case Done => s
    case Cas(i, j, rest) => Run(after, Swap(after, s, i, j), rest)
  }

  const NET2: Net := Cas(0, 1, Done)
  const NET3: Net := Cas(1, 2, Cas(0, 2, Cas(0, 1, Done)))
  const NET4: Net := Cas(0, 1, Cas(2, 3, Cas(0, 2, Cas(1, 3, Cas(1, 2, Done)))))

  const NET5: Net :=
    Cas(0, 1, Cas(3, 4, Cas(2, 4, Cas(2, 3, Cas(0, 3, Cas(0, 2, Cas(1, 4, Cas(1, 3, Cas(1, 2, Done)))))))))

  /** Merges two sorted halves of three. */
  const MERGE6: Net := Cas(0, 3, Cas(1, 4, Cas(2, 5, Cas(2, 4, Cas(1, 3, Cas(2, 3, Done))))))

  const NET6: Net := Cas(1, 2, Cas(0, 2, Cas(0, 1, Cas(4, 5, Cas(3, 5, Cas(3, 4, MERGE6))))))

  /** Merges a sorted three and a sorted four. */
  const MERGE7: Net := Cas(0, 4, Cas(0, 3, Cas(1, 5, Cas(2, 6, Cas(2, 5, Cas(1, 3, Cas(2, 4, Cas(2, 3, Done))))))))

  const NET7: Net :=
    Cas(1, 2, Cas(0, 2, Cas(0, 1, Cas(3, 4, Cas(5, 6, Cas(3, 5, Cas(4, 6, Cas(4, 5, MERGE7))))))))

  /** Merges two sorted halves of four: first come the two smallest, then the other six. */
  const LAST8: Net := Cas(2, 6, Cas(3, 7, Cas(3, 6, Cas(2, 4, Cas(3, 5, Cas(3, 4, Done))))))
  const MERGE8: Net := Cas(0, 4, Cas(1, 5, Cas(1, 4, LAST8)))

  const NET8: Net :=
    Cas(0, 1, Cas(2, 3, Cas(0, 2, Cas(1, 3, Cas(1, 2, Cas(4, 5, Cas(6, 7, Cas(4, 6, Cas(5, 7, Cas(5, 6, MERGE8))))))))))

  /** Zeros and ones in order: false before true. */
  const BIT_AFTER: (bool, bool) -> bool := (a, b) => a && !b

  predicate Rising(b: seq<bool>, lo: nat, hi: nat)
    requires hi <= |b|
  {
    forall i, j :: lo <= i < j < hi && b[i] ==> b[j]
  }

  lemma Gate(net: Net, b: seq<bool>) returns (rest: Net, r: seq<bool>)
    requires net.Cas? && Fits(net, |b|)
    ensures rest == net.rest && |r| == |b| && Fits(rest, |r|) && Run(BIT_AFTER, r, rest) == Run(BIT_AFTER, b, net)
    ensures r[net.i] == (b[net.i] && b[net.j]) && r[net.j] == (b[net.i] || b[net.j])
    ensures forall k :: 0 <= k < |b| && k != net.i && k != net.j ==> r[k] == b[k]
  {
    rest, r := net.rest, Swap(BIT_AFTER, b, net.i, net.j);
  }

  lemma Bits2(b: seq<bool>)
    requires |b| == 2
    ensures Fits(NET2, 2) && Rising(Run(BIT_AFTER, b, NET2), 0, 2)
  {
    var net, r := NET2, b;
    net, r := Gate(net, r);
  }

  lemma Bits3(b: seq<bool>)
    requires |b| == 3
    ensures Fits(NET3, 3) && Rising(Run(BIT_AFTER, b, NET3), 0, 3)
  {
    var net, r := NET3, b;
    net, r := Gate(net, r);
    net, r := Gate(net, r);
    net, r := Gate(net, r);
  }

  lemma Bits4(b: seq<bool>)
    requires |b| == 4
    ensures Fits(NET4, 4) && Rising(Run(BIT_AFTER, b, NET4), 0, 4)
  {
    var net, r := NET4, b;
    net, r := Gate(net, r);
    net, r := Gate(net, r);
    net, r := Gate(net, r);
    net, r := Gate(net, r);
    net, r := Gate(net, r);
  }

  lemma Bits5(b: seq<bool>)
    requires |b| == 5
    ensures Fits(NET5, 5) && Rising(Run(BIT_AFTER, b, NET5), 0, 5)
  {
    var net, r := NET5, b;
    net, r := Gate(net, r);
    net, r := Gate(net, r);
    net, r := Gate(net, r);
    net, r := Gate(net, r);
    net, r := Gate(net, r);
    net, r := Gate(net, r);
    net, r := Gate(net, r);
    net, r := Gate(net, r);
    net, r := Gate(net, r);
  }

  lemma Halves6(b: seq<bool>) returns (r: seq<bool>)
    requires |b| == 6
    ensures Fits(NET6, 6) && Fits(MERGE6, 6) && |r| == 6 && Run(BIT_AFTER, b, NET6) == Run(BIT_AFTER, r, MERGE6)
    ensures Rising(r, 0, 3) && Rising(r, 3, 6)
  {
    assert Fits(MERGE6, 6);
    var net;
    net, r := NET6, b;
    net, r := Gate(net, r);
    net, r := Gate(net, r);
    net, r := Gate(net, r);
    net, r := Gate(net, r);
    net, r := Gate(net, r);
    net, r := Gate(net, r);
  }

  lemma Merge6(b: seq<bool>)
    requires |b| == 6 && Rising(b, 0, 3) && Rising(b, 3, 6)
    ensures Fits(MERGE6, 6) && Rising(Run(BIT_AFTER, b, MERGE6), 0, 6)
  {
    var net, r := MERGE6, b;
    net, r := Gate(net, r);
    net, r := Gate(net, r);
    net, r := Gate(net, r);
    net, r := Gate(net, r);
    net, r := Gate(net, r);
    net, r := Gate(net, r);
  }

  lemma Bits6(b: seq<bool>)
    requires |b| == 6
    ensures Fits(NET6, 6) && Rising(Run(BIT_AFTER, b, NET6), 0, 6)
  {
    var r := Halves6(b);
    Merge6(r);
  }

  lemma Half7(b: seq<bool>) returns (net: Net, r: seq<bool>)
    requires |b| == 7 && Fits(NET7, 7)
    ensures net == Cas(3, 4, Cas(5, 6, Cas(3, 5, Cas(4, 6, Cas(4, 5, MERGE7))))) && Fits(net, 7) && |r| == 7
    ensures Run(BIT_AFTER, b, NET7) == Run(BIT_AFTER, r, net) && Rising(r, 0, 3)
  {
    net, r := NET7, b;
    net, r := Gate(net, r);
    net, r := Gate(net, r);
    net, r := Gate(net, r);
  }

  lemma Halves7(b: seq<bool>) returns (r: seq<bool>)
    requires |b| == 7
    ensures Fits(NET7, 7) && Fits(MERGE7, 7) && |r| == 7 && Run(BIT_AFTER, b, NET7) == Run(BIT_AFTER, r, MERGE7)
    ensures Rising(r, 0, 3) && Rising(r, 3, 7)
  {
    assert Fits(MERGE7, 7);
    var net;
    net, r := Half7(b);
    net, r := Gate(net, r);
    net, r := Gate(net, r);
    net, r := Gate(net, r);
    net, r := Gate(net, r);
    net, r := Gate(net, r);
  }

  lemma Merge7(b: seq<bool>)
    requires |b| == 7 && Rising(b, 0, 3) && Rising(b, 3, 7)
    ensures Fits(MERGE7, 7) && Rising(Run(BIT_AFTER, b, MERGE7), 0, 7)
  {
    var net, r := MERGE7, b;
    net, r := Gate(net, r);
    net, r := Gate(net, r);
    net, r := Gate(net, r);
    net, r := Gate(net, r);
    net, r := Gate(net, r);
    net, r := Gate(net, r);
    net, r := Gate(net, r);
    net, r := Gate(net, r);
  }

  lemma Bits7(b: seq<bool>)
    requires |b| == 7
    ensures Fits(NET7, 7) && Rising(Run(BIT_AFTER, b, NET7), 0, 7)
  {
    var r := Halves7(b);
    Merge7(r);
  }

  lemma Half8(b: seq<bool>) returns (net: Net, r: seq<bool>)
    requires |b| == 8 && Fits(NET8, 8)
    ensures net == Cas(4, 5, Cas(6, 7, Cas(4, 6, Cas(5, 7, Cas(5, 6, MERGE8))))) && Fits(net, 8) && |r| == 8
    ensures Run(BIT_AFTER, b, NET8) == Run(BIT_AFTER, r, net) && Rising(r, 0, 4)
  {
    net, r := NET8, b;
    net, r := Gate(net, r);
    net, r := Gate(net, r);
    net, r := Gate(net, r);
    net, r := Gate(net, r);
    net, r := Gate(net, r);
  }

  lemma Halves8(b: seq<bool>) returns (r: seq<bool>)
    requires |b| == 8
    ensures Fits(NET8, 8) && Fits(MERGE8, 8) && |r| == 8 && Run(BIT_AFTER, b, NET8) == Run(BIT_AFTER, r, MERGE8)
    ensures Rising(r, 0, 4) && Rising(r, 4, 8)
  {
    assert Fits(MERGE8, 8);
    var net;
    net, r := Half8(b);
    net, r := Gate(net, r);
    net, r := Gate(net, r);
    net, r := Gate(net, r);
    net, r := Gate(net, r);
    net, r := Gate(net, r);
  }

  /** The two smallest are in place, and the others are three rising pairs, of which the middle one is not last. */
  predicate TwoPlaced(r: seq<bool>)
    requires |r| == 8
  {
    && (r[0] ==> r[1]) && (r[1] ==> r[2] && r[3] && r[4] && r[5] && r[6] && r[7])
    && (r[2] ==> r[3]) && (r[4] ==> r[5]) && (r[6] ==> r[7]) && (r[5] ==> r[2] || r[6])
  }

  lemma First8(b: seq<bool>) returns (r: seq<bool>)
    requires |b| == 8 && Rising(b, 0, 4) && Rising(b, 4, 8)
    ensures Fits(MERGE8, 8) && Fits(LAST8, 8) && |r| == 8 && Run(BIT_AFTER, b, MERGE8) == Run(BIT_AFTER, r, LAST8)
    ensures TwoPlaced(r)
  {
    assert Fits(LAST8, 8);
    var net;
    net, r := MERGE8, b;
    net, r := Gate(net, r);
    net, r := Gate(net, r);
    net, r := Gate(net, r);
  }

  lemma Last8(b: seq<bool>)
    requires |b| == 8 && TwoPlaced(b)
    ensures Fits(LAST8, 8) && Rising(Run(BIT_AFTER, b, LAST8), 0, 8)
  {
    var net, r := LAST8, b;
    net, r := Gate(net, r);
    net, r := Gate(net, r);
    net, r := Gate(net, r);
    net, r := Gate(net, r);
    net, r := Gate(net, r);
    net, r := Gate(net, r);
  }

  lemma Merge8(b: seq<bool>)
    requires |b| == 8 && Rising(b, 0, 4) && Rising(b, 4, 8)
    ensures Fits(MERGE8, 8) && Rising(Run(BIT_AFTER, b, MERGE8), 0, 8)
  {
    var r := First8(b);
    Last8(r);
  }

  lemma Bits8(b: seq<bool>)
    requires |b| == 8
    ensures Fits(NET8, 8) && Rising(Run(BIT_AFTER, b, NET8), 0, 8)
  {
    var r := Halves8(b);
    Merge8(r);
  }

  function Bits<T>(f: T -> bool, s: seq<T>): (r: seq<bool>)
    ensures |r| == |s|
    ensures forall k :: 0 <= k < |s| ==> r[k] == f(s[k])
  {
    seq(|s|, k requires 0 <= k < |s| => f(s[k]))
  }

  /** A threshold of the order: along the order f goes from false to true and never back. */
  ghost predicate Threshold<T(!new)>(after: (T, T) -> bool, f: T -> bool) {
    forall x, y :: (after(x, y) && f(y) ==> f(x)) && (!after(x, y) && f(x) ==> f(y))
  }

  /** Running a network and taking bits by a threshold commute. */
  lemma {:induction false} ZeroOne<T(!new)>(after: (T, T) -> bool, f: T -> bool, s: seq<T>, net: Net)
    requires Threshold(after, f) && Fits(net, |s|)
    ensures Bits(f, Run(after, s, net)) == Run(BIT_AFTER, Bits(f, s), net)
    decreases net
  {
    match net
    case Done =>
    case Cas(i, j, rest) =>
      assert Bits(f, Swap(after, s, i, j)) == Swap(BIT_AFTER, Bits(f, s), i, j);
      ZeroOne(after, f, Swap(after, s, i, j), rest);
  }

  lemma SwapPermutes<T>(after: (T, T) -> bool, s: seq<T>, i: nat, j: nat)
    requires i < j < |s|
    ensures multiset(Swap(after, s, i, j)) == multiset(s)
  {
  }

  lemma {:induction false} RunPermutes<T>(after: (T, T) -> bool, s: seq<T>, net: Net)
    requires Fits(net, |s|)
    ensures multiset(Run(after, s, net)) == multiset(s)
    decreases net
  {
    match net
    case Done =>
    case Cas(i, j, rest) =>
      SwapPermutes(after, s, i, j);
      RunPermutes(after, Swap(after, s, i, j), rest);
  }

  /** The network for n elements, 2 <= n <= 8. */
  function Network(n: nat): Net
    requires 2 <= n <= 8
  {
    if n == 2 then NET2 else if n == 3 then NET3 else if n == 4 then NET4 else if n == 5 then NET5
    else if n == 6 then NET6 else if n == 7 then NET7 else NET8
  }

  lemma SortsBits(b: seq<bool>)
    requires 2 <= |b| <= 8
    ensures Fits(Network(|b|), |b|) && Rising(Run(BIT_AFTER, b, Network(|b|)), 0, |b|)
  {
    match |b| {
      case 2 => Bits2(b);
      case 3 => Bits3(b);
      case 4 => Bits4(b);
      case 5 => Bits5(b);
      case 6 => Bits6(b);
      case 7 => Bits7(b);
      case _ => Bits8(b);
    }
  }
}
