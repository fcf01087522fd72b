/** Division, powers of two and bit masks on unbounded naturals. */
module Arith {
  lemma {:induction false} DivModUnique(x: int, n: int, q: int, r: int)
    requires n > 0 && 0 <= r < n && x == n * q + r
    ensures x / n == q && x % n == r
  {
    var d := q - x / n;
    assert n * d == x % n - r by { assert x == n * (x / n) + x % n; }
    assert d >= 1 ==> n * d >= n;
    assert d <= -1 ==> n * d <= -n;
  }

  lemma {:induction false} ModOfMultiple(x: nat, n: nat, k: nat)
    requires n > 0
    ensures (x + n * k) % n == x % n
  {
    DivModUnique(x + n * k, n, x / n + k, x % n);
  }

  function Pow2(k: nat): (p: nat)
    ensures p > 0
  {
    if k == 0 then 1 else 2 * Pow2(k - 1)
  }

  lemma {:induction false} Pow2Add(i: nat, j: nat)
    ensures Pow2(i + j) == Pow2(i) * Pow2(j)
  {
    if i > 0 { Pow2Add(i - 1, j); }
  }

  /** Bitwise and, bit by bit from the lowest. */
  function BitAnd(x: nat, y: nat): nat {
    if x == 0 || y == 0 then 0
    else (if x % 2 == 1 && y % 2 == 1 then 1 else 0) + 2 * BitAnd(x / 2, y / 2)
  }

  lemma {:induction false} MaskIsMod(x: nat, k: nat)
    ensures BitAnd(x, Pow2(k) - 1) == x % Pow2(k)
  {
    var p := Pow2(k);
    if x == 0 {
      DivModUnique(x, p, 0, 0);
    } else if k == 0 {
      DivModUnique(x, p, x, 0);
    } else {
      var h := Pow2(k - 1);
      calc {
        BitAnd(x, p - 1);
      == { LowBit(x, h); }
        x % 2 + 2 * BitAnd(x / 2, h - 1);
      == { MaskIsMod(x / 2, k - 1); }
        x % 2 + 2 * ((x / 2) % h);
      == { HalveMod(x, h); }
        x % p;
      }
    }
  }

  lemma {:induction false} LowBit(x: nat, h: nat)
    requires h > 0 && x > 0
    ensures BitAnd(x, 2 * h - 1) == x % 2 + 2 * BitAnd(x / 2, h - 1)
  {
    var m := 2 * h - 1;
    assert m / 2 == h - 1 && m % 2 == 1;
  }

  lemma {:induction false} HalveMod(x: nat, h: nat)
    requires h > 0
    ensures x % (2 * h) == x % 2 + 2 * ((x / 2) % h)
  {
    var y := x / 2;
    assert y == h * (y / h) + y % h;
    assert 2 * y == (2 * h) * (y / h) + 2 * (y % h);
    DivModUnique(x, 2 * h, y / h, x % 2 + 2 * (y % h));
  }
}
