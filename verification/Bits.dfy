/** Bit operations on natural numbers, for 32-bit words. */
module Bits {
  import opened Indexing

  type Word = x: int | 0 <= x < 0x1_0000_0000

  const WORDS: int := 0x1_0000_0000

  function Pow2(k: nat): (p: nat)
    ensures p > 0
  {
    if k == 0 then 1 else 2 * Pow2(k - 1)
  }

  /** Bitwise or. */
  function Or(x: nat, y: nat): (z: nat)
    decreases x + y
  {
    if x == 0 then y else if y == 0 then x
    else (if x % 2 == 1 || y % 2 == 1 then 1 else 0) + 2 * Or(x / 2, y / 2)
  }

  /** Bitwise and. */
  function And(x: nat, y: nat): (z: nat)
    ensures z <= x && z <= y
    decreases x + y
  {
    if x == 0 || y == 0 then 0
    else (if x % 2 == 1 && y % 2 == 1 then 1 else 0) + 2 * And(x / 2, y / 2)
  }

  lemma Pow2Values()
    ensures Pow2(8) == 0x100 && Pow2(16) == 0x1_0000 && Pow2(20) == 0x10_0000 && Pow2(22) == 0x40_0000
    ensures Pow2(24) == 0x100_0000 && Pow2(25) == 0x200_0000 && Pow2(31) == 0x8000_0000 && Pow2(32) == 0x1_0000_0000
  {
    assert Pow2(4) == 16 && Pow2(8) == 0x100 && Pow2(12) == 0x1000 && Pow2(16) == 0x1_0000;
    assert Pow2(20) == 0x10_0000 && Pow2(24) == 0x100_0000 && Pow2(28) == 0x1000_0000 && Pow2(32) == 0x1_0000_0000;
  }

  /** A number whose low `k` bits are clear, or-ed with one that fits there, is their sum. */
  lemma {:induction false} OrIsSum(h: nat, y: nat, k: nat)
    requires y < Pow2(k)
    ensures Or(h * Pow2(k), y) == h * Pow2(k) + y
    decreases k
  {
    if k > 0 && h > 0 && y > 0 {
      var x := h * Pow2(k);
      var half := h * Pow2(k - 1);
      assert x == 2 * half;
      OrIsSum(h, y / 2, k - 1);
      assert x / 2 == half && x % 2 == 0 && x > 0;
      assert y == 2 * (y / 2) + y % 2;
    }
  }

  lemma {:induction false} OrStays(x: nat, y: nat, k: nat)
    requires x < Pow2(k) && y < Pow2(k)
    ensures Or(x, y) < Pow2(k)
    decreases k
  {
    if k > 0 {
      OrStays(x / 2, y / 2, k - 1);
    }
  }

  ghost predicate IsPower(p: nat) { exists k :: Pow2(k) == p }

  lemma Powers()
    ensures IsPower(0x100) && IsPower(0x1_0000) && IsPower(0x10_0000) && IsPower(0x40_0000)
    ensures IsPower(0x100_0000) && IsPower(0x200_0000) && IsPower(0x8000_0000) && IsPower(0x1_0000_0000)
  {
    Pow2Values();
  }

  /** Or-ing bits in below a multiple of a power of two adds them. */
  lemma OrAdds(h: nat, y: nat, p: nat)
    requires IsPower(p) && y < p
    ensures Or(h * p, y) == h * p + y && Or(y, h * p) == h * p + y
  {
    var k :| Pow2(k) == p;
    OrIsSum(h, y, k);
    OrCommutes(h * p, y);
  }

  lemma {:induction false} OrCommutes(x: nat, y: nat)
    ensures Or(x, y) == Or(y, x)
    decreases x + y
  {
    if x > 0 && y > 0 {
      OrCommutes(x / 2, y / 2);
    }
  }

  // ----- single bits

  function Bit(n: nat, k: nat): nat { n / Pow2(k) % 2 }

  lemma BitIsSmall(n: nat, k: nat)
    ensures Bit(n, k) < 2
  {}

  lemma BitOfHalf(n: nat, k: nat)
    ensures Bit(n / 2, k) == Bit(n, k + 1)
  {
    var p := Pow2(k);
    var q, r := n / 2 / p, n / 2 % p;
    assert n / 2 == q * p + r;
    assert n == q * (2 * p) + (2 * r + n % 2);
    DivModUnique(n, 2 * p, q, 2 * r + n % 2);
  }

  lemma LowBit(n: nat)
    ensures Bit(n, 0) == n % 2
  {
    assert Pow2(0) == 1;
  }

  lemma {:induction false} OrBit(x: nat, y: nat, k: nat)
    ensures Bit(Or(x, y), k) == if Bit(x, k) == 1 || Bit(y, k) == 1 then 1 else 0
    decreases k
  {
    hide Bit;
    forall n: nat ensures Bit(n, 0) == n % 2 { LowBit(n); }
    forall n: nat, i: nat ensures Bit(n, i) < 2 { BitIsSmall(n, i); }
    assert Bit(0, k) == 0 by { ZeroBit(k); }
    if k > 0 && x > 0 && y > 0 {
      OrBit(x / 2, y / 2, k - 1);
      BitOfHalf(x, k - 1);
      BitOfHalf(y, k - 1);
      BitOfHalf(Or(x, y), k - 1);
    }
  }

  lemma {:induction false} AndBit(x: nat, y: nat, k: nat)
    ensures Bit(And(x, y), k) == if Bit(x, k) == 1 && Bit(y, k) == 1 then 1 else 0
    decreases k
  {
    hide Bit;
    forall n: nat ensures Bit(n, 0) == n % 2 { LowBit(n); }
    forall n: nat, i: nat ensures Bit(n, i) < 2 { BitIsSmall(n, i); }
    assert Bit(0, k) == 0 by { ZeroBit(k); }
    if k > 0 && x > 0 && y > 0 {
      AndBit(x / 2, y / 2, k - 1);
      BitOfHalf(x, k - 1);
      BitOfHalf(y, k - 1);
      BitOfHalf(And(x, y), k - 1);
    }
  }

  lemma ZeroBit(k: nat)
    ensures Bit(0, k) == 0
  {}

  lemma {:induction false} ComplementBit(x: nat, width: nat, k: nat)
    requires x < Pow2(width) && k < width
    ensures Bit(Pow2(width) - 1 - x, k) == 1 - Bit(x, k)
    decreases k
  {
    hide Bit;
    var y := Pow2(width) - 1 - x;
    assert Pow2(width) == 2 * Pow2(width - 1);
    LowBit(x);
    LowBit(y);
    if k > 0 {
      assert y / 2 == Pow2(width - 1) - 1 - x / 2;
      ComplementBit(x / 2, width - 1, k - 1);
      BitOfHalf(x, k - 1);
      BitOfHalf(y, k - 1);
    }
  }
}
