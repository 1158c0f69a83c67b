/**
 Machine words as natural numbers, and C's bitwise operators on them.

 The rest of the project computes with division and remainder.  The lemmas here show
 that each shift-and-mask expression of the source equals the arithmetic form used for it.
 */
module Words {

  const TWO_64: nat := 0x1_0000_0000_0000_0000

  type Word = x: nat | x < TWO_64

  type U32 = x: nat | x < 0x1_0000_0000

  type U16 = x: nat | x < 0x1_0000

  function Pow2(k: nat): (r: nat)
    ensures r >= 1
  {
    if k == 0 then 1 else 2 * Pow2(k - 1)
  }

  /** C's `x >> k` on an unsigned word. */
  function Shr(x: nat, k: nat): nat {
    if k == 0 then x else Shr(x / 2, k - 1)
  }

  /** The k low bits. */
  function Low(x: nat, k: nat): nat {
    if k == 0 then 0 else 2 * Low(x / 2, k - 1) + x % 2
  }

  /** C's `x & y`. */
  function And(x: nat, y: nat): nat {
    if x == 0 || y == 0 then 0
    else 2 * And(x / 2, y / 2) + if x % 2 == 1 && y % 2 == 1 then 1 else 0
  }

  /** C's `x | y`. */
  function Or(x: nat, y: nat): nat
    decreases x + y
  {
    if x == 0 then y else if y == 0 then x
    else 2 * Or(x / 2, y / 2) + if x % 2 == 1 || y % 2 == 1 then 1 else 0
  }

  // Arithmetic.

  lemma MulAdd(d: nat, a: nat, b: nat)
    ensures d * (a + b) == d * a + d * b
  {
  }

  lemma MulAssoc(d: nat, a: nat, b: nat)
    ensures d * (a * b) == (d * a) * b
  {
  }

  lemma MulGap(d: nat, a: nat, b: nat)
    requires a < b
    ensures d * a + d <= d * b
  {
    MulAdd(d, a + 1, b - a - 1);
    MulAdd(d, a, 1);
  }

  lemma DivModUnique(x: nat, d: nat, q: nat, r: nat)
    requires d > 0 && r < d && x == d * q + r
    ensures x / d == q && x % d == r
  {
    if x / d < q {
      MulGap(d, x / d, q);
    } else if q < x / d {
      MulGap(d, q, x / d);
    }
  }

  /** Dividing by d * p is dividing by d and then by p. */
  lemma SplitDivMod(x: nat, d: nat, p: nat)
    requires d > 0 && p > 0
    ensures d * p > 0
    ensures x / (d * p) == x / d / p
    ensures x % (d * p) == d * (x / d % p) + x % d
  {
    Nest(x, d, p, x / d, x % d, x / d / p, x / d % p);
    DivModUnique(x, d * p, x / d / p, d * (x / d % p) + x % d);
  }

  lemma Nest(x: nat, d: nat, p: nat, y: nat, s: nat, q: nat, r: nat)
    requires x == d * y + s && s < d && y == p * q + r && r < p
    ensures 0 <= d * r + s < d * p
    ensures x == (d * p) * q + (d * r + s)
  {
    MulAdd(d, p * q, r);
    MulAssoc(d, p, q);
    MulGap(d, r, p);
  }

  lemma {:induction false} Pow2Add(a: nat, b: nat)
    ensures Pow2(a + b) == Pow2(a) * Pow2(b)
  {
    if b > 0 {
      Pow2Add(a, b - 1);
      MulAdd(Pow2(a), Pow2(b - 1), Pow2(b - 1));
    }
  }

  lemma Pow2Values()
    ensures Pow2(0) == 1 && Pow2(1) == 2 && Pow2(2) == 4 && Pow2(9) == 0x200 && Pow2(12) == 0x1000
    ensures Pow2(21) == 0x20_0000 && Pow2(30) == 0x4000_0000 && Pow2(39) == 0x80_0000_0000
    ensures Pow2(52) == 0x10_0000_0000_0000 && Pow2(64) == TWO_64
  {
    assert Pow2(3) == 8;
    assert Pow2(9) == 0x200 by { Pow2Add(3, 3); Pow2Add(6, 3); }
    Pow2Add(9, 3);
    Pow2Add(12, 9);
    Pow2Add(21, 9);
    Pow2Add(30, 9);
    Pow2Add(30, 21);
    Pow2Add(52, 12);
  }

  // Shifts and masks.

  lemma {:induction false} LowHigh(x: nat, k: nat)
    ensures Low(x, k) < Pow2(k) && x == Pow2(k) * Shr(x, k) + Low(x, k)
  {
    if k > 0 {
      LowHigh(x / 2, k - 1);
      MulAssoc(2, Pow2(k - 1), Shr(x / 2, k - 1));
    }
  }

  /** A shift divides, and what it drops is the remainder. */
  lemma ShiftIsDiv(x: nat, k: nat)
    ensures Shr(x, k) == x / Pow2(k) && Low(x, k) == x % Pow2(k)
  {
    LowHigh(x, k);
    DivModUnique(x, Pow2(k), Shr(x, k), Low(x, k));
  }

  /** Masking with k low ones keeps the k low bits. */
  lemma {:induction false} AndLowMask(x: nat, k: nat)
    ensures And(x, Pow2(k) - 1) == Low(x, k)
  {
    if k > 0 {
      AndLowMask(x / 2, k - 1);
      AndOdd(x, Pow2(k - 1) - 1);
    }
  }

  /** Masking with ones from bit k up to bit n - 1 clears the k low bits of an n-bit word. */
  lemma {:induction false} AndHighMask(x: nat, n: nat, k: nat)
    requires k <= n && x < Pow2(n)
    ensures Pow2(k) <= Pow2(n)
    ensures And(x, Pow2(n) - Pow2(k)) + Low(x, k) == x
  {
    if k > 0 {
      AndHighMask(x / 2, n - 1, k - 1);
      AndEven(x, Pow2(n - 1) - Pow2(k - 1));
    } else {
      AndLowMask(x, n);
      LowOfSmall(x, n);
    }
  }

  lemma {:induction false} LowOfSmall(x: nat, n: nat)
    requires x < Pow2(n)
    ensures Low(x, n) == x
  {
    if n > 0 {
      LowOfSmall(x / 2, n - 1);
    }
  }

  /** Testing a single bit. */
  lemma {:induction false} AndBit(x: nat, k: nat)
    ensures And(x, Pow2(k)) == if Shr(x, k) % 2 == 1 then Pow2(k) else 0
  {
    if k == 0 {
      AndOdd(x, 0);
    } else {
      AndBit(x / 2, k - 1);
      AndEven(x, Pow2(k - 1));
    }
  }

  lemma AndEven(x: nat, m: nat)
    ensures And(x, 2 * m) == 2 * And(x / 2, m)
  {
    assert 2 * m / 2 == m && 2 * m % 2 == 0;
  }

  lemma AndOdd(x: nat, m: nat)
    ensures And(x, 2 * m + 1) == 2 * And(x / 2, m) + x % 2
  {
    assert (2 * m + 1) / 2 == m && (2 * m + 1) % 2 == 1;
  }

  /** Or-ing a flag into the lowest bit, which is clear. */
  lemma OrFlag(x: nat)
    ensures Or(2 * x, 1) == 2 * x + 1
  {
    assert 2 * x / 2 == x && 2 * x % 2 == 0;
  }

  /** Or-ing an even flag word leaves a set lowest bit set. */
  lemma OrAbove(x: nat, f: nat)
    requires f > 0
    ensures Or(2 * x + 1, 2 * f) == 2 * Or(x, f) + 1
  {
    assert (2 * x + 1) / 2 == x && (2 * x + 1) % 2 == 1 && 2 * f / 2 == f;
  }

  lemma SubsetSize<T>(a: set<T>, b: set<T>)
    requires a <= b
    ensures |a| <= |b|
  {
    if a != {} {
      var x :| x in a;
      SubsetSize(a - {x}, b - {x});
    }
  }
}
