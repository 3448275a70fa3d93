/** Go's fixed-width unsigned integers: arithmetic that wraps around. */
module Word64 {
  const MODULUS: int := 0x1_0000_0000_0000_0000

  type Word = x: int | 0 <= x < 0x1_0000_0000_0000_0000
  type Uint32 = x: int | 0 <= x < 0x1_0000_0000

  function Plus(a: Word, b: Word): Word {
    if a + b < 0x1_0000_0000_0000_0000 then a + b else a + b - 0x1_0000_0000_0000_0000
  }

  function Minus(a: Word, b: Word): Word {
    if b <= a then a - b else a - b + 0x1_0000_0000_0000_0000
  }

  function Next(a: Uint32): Uint32 {
    if a == 0xFFFF_FFFF then 0 else a + 1
  }

  /** Equal up to a multiple of 2^64. */
  predicate Congruent(a: int, b: int) {
    (a - b) % MODULUS == 0
  }

  lemma Wraps(a: Word, b: Word)
    ensures Plus(a, b) == (a + b) % MODULUS && Minus(a, b) == (a - b) % MODULUS
  {
  }

  lemma NextWraps(a: Uint32, n: nat)
    requires a == n % 0x1_0000_0000
    ensures Next(a) == (n + 1) % 0x1_0000_0000
  {
  }

  lemma MinusCongruent(a: Word, b: Word)
    ensures Congruent(Minus(a, b) - (a - b), 0)
  {
  }

  lemma CongruentTrans(a: int, b: int, c: int)
    requires Congruent(a, b) && Congruent(b, c)
    ensures Congruent(a, c)
  {
    assert a - c == (a - b) + (b - c);
  }

  lemma CongruentDifference(x: int, a: int, b: int)
    requires Congruent(x, 0) && x == a - b
    ensures Congruent(a, b)
  {
  }

  lemma CongruentPlus(a: int, b: int, d: int)
    requires Congruent(a, b)
    ensures Congruent(a + d, b + d)
  {
    assert (a + d) - (b + d) == a - b;
  }
}
