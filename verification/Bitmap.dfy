/** The growable bitmap that remembers which commands of a batch go to replicas: three words
    inline, the others in an extension slice. Words are 64-bit numbers. */
module Bitmap {
  import opened Arith

  const INLINE := 192

  /** Bit k of x. */
  predicate Bit(x: nat, k: nat)
    decreases k
  {
    if k == 0 then x % 2 == 1 else Bit(x / 2, k - 1)
  }

  /** Bitwise or, bit by bit from the lowest. */
  function BitOr(x: nat, y: nat): nat
    decreases x + y
  {
    if x == 0 then y
    else if y == 0 then x
    else (if x % 2 == 1 || y % 2 == 1 then 1 else 0) + 2 * BitOr(x / 2, y / 2)
  }

  lemma {:induction false} NoBits(k: nat)
    ensures !Bit(0, k)
  {
    if k > 0 { NoBits(k - 1); }
  }

  lemma {:induction false} OrBit(x: nat, y: nat, k: nat)
    ensures Bit(BitOr(x, y), k) <==> Bit(x, k) || Bit(y, k)
    decreases k
  {
    if x == 0 || y == 0 {
      NoBits(k);
    } else {
      var b := if x % 2 == 1 || y % 2 == 1 then 1 else 0;
      assert BitOr(x, y) / 2 == BitOr(x / 2, y / 2) && BitOr(x, y) % 2 == b;
      if k > 0 { OrBit(x / 2, y / 2, k - 1); }
    }
  }

  lemma {:induction false} PowerBit(j: nat, k: nat)
    ensures Bit(Pow2(j), k) <==> j == k
    decreases j
  {
    if j == 0 {
      if k > 0 { NoBits(k - 1); }
    } else if k > 0 {
      PowerBit(j - 1, k - 1);
    }
  }

  lemma {:induction false} AndBit(x: nat, k: nat)
    ensures BitAnd(x, Pow2(k)) != 0 <==> Bit(x, k)
    decreases k
  {
    if x == 0 {
      NoBits(k);
    } else if k == 0 {
      assert BitAnd(x / 2, 0) == 0;
    } else {
      AndBit(x / 2, k - 1);
      assert Pow2(k) % 2 == 0 && Pow2(k) / 2 == Pow2(k - 1);
    }
  }

  lemma {:induction false} OrBound(x: nat, y: nat, k: nat)
    requires x < Pow2(k) && y < Pow2(k)
    ensures BitOr(x, y) < Pow2(k)
    decreases k
  {
    if x > 0 && y > 0 { OrBound(x / 2, y / 2, k - 1); }
  }

  lemma {:induction false} PowerGrows(j: nat, k: nat)
    requires j < k
    ensures Pow2(j) < Pow2(k)
  {
    if j < k - 1 { PowerGrows(j, k - 1); }
  }

  lemma {:induction false} SetBit(x: nat, k: nat, m: nat)
    ensures Bit(BitOr(x, Pow2(k)), m) <==> m == k || Bit(x, m)
  {
    OrBit(x, Pow2(k), m);
    PowerBit(k, m);
  }

  predicate IsWord(x: nat) { x < Pow2(64) }

  /** A word with bit k set. */
  lemma {:induction false} WordSet(x: nat, k: nat)
    requires IsWord(x) && k < 64
    ensures IsWord(BitOr(x, Pow2(k)))
    ensures forall m: nat :: Bit(BitOr(x, Pow2(k)), m) <==> m == k || Bit(x, m)
  {
    PowerGrows(k, 64);
    OrBound(x, Pow2(k), 64);
    forall m: nat ensures Bit(BitOr(x, Pow2(k)), m) <==> m == k || Bit(x, m) { SetBit(x, k, m); }
  }

  /** Within one extension word, bits differ in their place. */
  lemma SameWord(i: nat, j: nat)
    requires i >= INLINE && j >= INLINE && (i - INLINE) / 64 == (j - INLINE) / 64
    ensures i == j <==> i % 64 == j % 64
  {
  }

  class Bitmap {
    var exts: array<nat>
    const bits: array<nat>

    ghost predicate Valid()
      reads this, exts, bits
    {
      bits.Length == 3 && exts != bits &&
      (forall w :: 0 <= w < 3 ==> IsWord(bits[w])) &&
      (forall w :: 0 <= w < exts.Length ==> IsWord(exts[w]))
    }

    function Len(): nat
      reads this
    {
      exts.Length * 64 + INLINE
    }

    /** The word that holds bit i. */
    ghost function Word(i: nat): nat
      requires Valid() && i < Len()
      reads this, exts, bits
    {
      if i < INLINE then bits[i / 64] else exts[(i - INLINE) / 64]
    }

    /** What the bitmap stands for. */
    ghost predicate Has(i: nat)
      requires Valid() && i < Len()
      reads this, exts, bits
    {
      Bit(Word(i), i % 64)
    }

    /** A fresh bitmap after Init(n): room for n bits, all of them clear. */
    constructor (n: nat)
      ensures Valid() && fresh(exts) && fresh(bits)
      ensures n <= Len()
      ensures forall i :: 0 <= i < Len() ==> !Has(i)
    {
      bits := new nat[3](_ => 0);
      exts := new nat[if n > INLINE then (n - INLINE + 63) / 64 else 0](_ => 0);
      new;
      forall i | 0 <= i < Len() ensures !Has(i) { NoBits(i % 64); }
    }

    method Set(i: nat)
      requires Valid() && i < Len()
      modifies exts, bits
      ensures Valid() && Len() == old(Len())
      ensures forall j :: 0 <= j < Len() ==> (Has(j) <==> j == i || old(Has(j)))
    {
      WordSet(Word(i), i % 64);
      if i < INLINE {
        SetInline(i);
      } else {
        SetExtension(i);
      }
    }

    method SetInline(i: nat)
      requires Valid() && i < INLINE
      requires IsWord(BitOr(Word(i), Pow2(i % 64)))
      requires forall m: nat :: Bit(BitOr(Word(i), Pow2(i % 64)), m) <==> m == i % 64 || Bit(Word(i), m)
      modifies bits
      ensures Valid() && forall j :: 0 <= j < Len() ==> (Has(j) <==> j == i || old(Has(j)))
    {
      bits[i / 64] := BitOr(bits[i / 64], Pow2(i % 64));
    }

    method SetExtension(i: nat)
      requires Valid() && INLINE <= i < Len()
      requires IsWord(BitOr(Word(i), Pow2(i % 64)))
      requires forall m: nat :: Bit(BitOr(Word(i), Pow2(i % 64)), m) <==> m == i % 64 || Bit(Word(i), m)
      modifies exts
      ensures Valid() && forall j :: 0 <= j < Len() ==> (Has(j) <==> j == i || old(Has(j)))
    {
      var w := (i - INLINE) / 64;
      exts[w] := BitOr(exts[w], Pow2(i % 64));
      forall j | 0 <= j < Len() ensures Has(j) <==> j == i || old(Has(j)) {
        if j >= INLINE && (j - INLINE) / 64 == w { SameWord(i, j); }
      }
    }

    method Get(i: nat) returns (r: bool)
      requires Valid() && i < Len()
      ensures r == Has(i)
    {
      AndBit(Word(i), i % 64);
      if i < INLINE {
        return BitAnd(bits[i / 64], Pow2(i % 64)) != 0;
      }
      return BitAnd(exts[(i - INLINE) / 64], Pow2(i % 64)) != 0;
    }
  }
}
