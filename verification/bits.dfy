/**
 * The binary expansion of a non-negative word, so that Java's single-bit masks
 * (`v | (1 << k)`, `v & ~(1 << k)`, `(v >> k) & 1`) on values in 0..0xFFFF can be
 * stated and proved with linear arithmetic.
 */
module Bits {
  import Arith

  const WordBits: nat := 16

  function Pow2(n: nat): (p: nat)
    ensures p >= 1
  {
    if n == 0 then 1 else 2 * Pow2(n - 1)
  }

  /** The low n bits of v, least significant first. */
  function ToBits(v: int, n: nat): (bs: seq<bool>)
    requires v >= 0
    ensures |bs| == n
  {
    if n == 0 then [] else [v % 2 == 1] + ToBits(v / 2, n - 1)
  }

  /** The number whose binary expansion, least significant first, is bs. */
  function FromBits(bs: seq<bool>): (v: nat)
    ensures v < Pow2(|bs|)
  {
    if bs == [] then 0 else (if bs[0] then 1 else 0) + 2 * FromBits(bs[1..])
  }

  lemma {:induction false} FromToBits(v: int, n: nat)
    requires 0 <= v < Pow2(n)
    ensures FromBits(ToBits(v, n)) == v
  {
    if n > 0 {
      assert v == 2 * (v / 2) + v % 2;
      FromToBits(v / 2, n - 1);
      assert ToBits(v, n)[1..] == ToBits(v / 2, n - 1);
    }
  }

  lemma {:induction false} ToFromBits(bs: seq<bool>)
    ensures ToBits(FromBits(bs), |bs|) == bs
  {
    if bs != [] {
      var b := if bs[0] then 1 else 0;
      var rest := FromBits(bs[1..]);
      Arith.DivMod(b + 2 * rest, 2, rest, b);
      ToFromBits(bs[1..]);
      assert bs == [bs[0]] + bs[1..];
    }
  }

  /** Halving k times is dividing by 2^k. */
  lemma {:induction false} HalveTimes(v: int, k: nat)
    requires v >= 0 && k >= 1
    ensures v / 2 / Pow2(k - 1) == v / Pow2(k)
  {
    var m := Pow2(k - 1);
    var q, r := v / (2 * m), v % (2 * m);
    assert v == q * (2 * m) + r;
    Arith.DivMod(v, 2, q * m + r / 2, r % 2);
    Arith.DivMod(q * m + r / 2, m, q, r / 2);
  }

  /** Bit k of the expansion is Java's `(v >> k) & 1` for a non-negative v. */
  lemma {:induction false} ToBitsIsShift(v: int, n: nat, k: nat)
    requires v >= 0 && k < n
    ensures ToBits(v, n)[k] == (v / Pow2(k) % 2 == 1)
  {
    if k > 0 {
      assert ToBits(v, n)[k] == ToBits(v / 2, n - 1)[k - 1];
      ToBitsIsShift(v / 2, n - 1, k - 1);
      HalveTimes(v, k);
    }
  }

  lemma WordSize()
    ensures Pow2(WordBits) == 0x10000
  {
    assert Pow2(4) == 16;
    assert Pow2(8) == 256;
    assert Pow2(12) == 4096;
  }

  predicate IsWord(v: int) { 0 <= v < 0x10000 }

  /** `(v >> k) & 1 == 1` */
  predicate Bit(v: int, k: nat)
    requires IsWord(v) && k < WordBits
  {
    v / Pow2(k) % 2 == 1
  }

  lemma BitIsExpansion(v: int)
    requires IsWord(v)
    ensures forall k :: 0 <= k < WordBits ==> ToBits(v, WordBits)[k] == Bit(v, k)
  {
    forall k | 0 <= k < WordBits
      ensures ToBits(v, WordBits)[k] == Bit(v, k)
    {
      ToBitsIsShift(v, WordBits, k);
    }
  }

  /** The word with bit k replaced by b: `v | (1 << k)` for true, `v & ~(1 << k)` for false. */
  function WithBit(v: int, k: nat, b: bool): (r: int)
    requires IsWord(v) && k < WordBits
    ensures IsWord(r)
    ensures forall j :: 0 <= j < WordBits ==> Bit(r, j) == if j == k then b else Bit(v, j)
  {
    var bs := ToBits(v, WordBits)[k := b];
    var r := FromBits(bs);
    WordSize();
    assert ToBits(r, WordBits) == bs by { ToFromBits(bs); }
    BitIsExpansion(v);
    BitIsExpansion(r);
    r
  }

  /** `v | (1 << k)` */
  function SetBit(v: int, k: nat): (r: int)
    requires IsWord(v) && k < WordBits
    ensures IsWord(r)
    ensures forall j :: 0 <= j < WordBits ==> Bit(r, j) == (j == k || Bit(v, j))
  {
    WithBit(v, k, true)
  }

  /** `v & ~(1 << k)` */
  function ClearBit(v: int, k: nat): (r: int)
    requires IsWord(v) && k < WordBits
    ensures IsWord(r)
    ensures forall j :: 0 <= j < WordBits ==> Bit(r, j) == (j != k && Bit(v, j))
  {
    WithBit(v, k, false)
  }

  /** A word is determined by its bits. */
  lemma BitsDetermine(v: int, w: int)
    requires IsWord(v) && IsWord(w)
    requires forall j :: 0 <= j < WordBits ==> Bit(v, j) == Bit(w, j)
    ensures v == w
  {
    BitIsExpansion(v);
    BitIsExpansion(w);
    assert ToBits(v, WordBits) == ToBits(w, WordBits);
    WordSize();
    FromToBits(v, WordBits);
    FromToBits(w, WordBits);
  }
}
