/** Shifted words and the bitwise or: numbers as high and low bits. */
module Shifts {
  import opened Bits

  lemma NatProduct(x: nat, y: nat)
    ensures x * y >= 0
  {
  }

  lemma Distribute(a: int, b: int, c: int)
    ensures (a + b) * c == a * c + b * c
  {
  }

  lemma {:induction false} OrZero(x: nat)
    ensures Or(x, 0) == x
  {
    if x > 0 { OrZero(x / 2); }
  }

  lemma DivNat(a: nat, m: nat)
    requires m > 0
    ensures a / m >= 0 && 0 <= a % m < m
  {
  }

  function Shr(k: nat, s: nat): nat {
    DivNat(k, Pow2(s));
    k / Pow2(s)
  }

  function Low(k: nat, s: nat): (r: nat)
    ensures r < Pow2(s)
  {
    DivNat(k, Pow2(s));
    k % Pow2(s)
  }

  /** x shifted left by s, with i in the low bits. */
  function Join(x: nat, s: nat, i: nat): nat {
    NatProduct(x, Pow2(s));
    x * Pow2(s) + i
  }

  lemma JoinHalf(x: nat, s: nat, i: nat)
    requires s > 0
    ensures Join(x, s, i) / 2 == Join(x, s - 1, i / 2) && Join(x, s, i) % 2 == i % 2
  {
    Regroup(x, 2, Pow2(s - 1));
    var h := x * Pow2(s - 1);
    assert x * Pow2(s) == 2 * h;
  }

  lemma JoinDouble(z: nat, s: nat, k: nat, c: nat)
    requires s > 0
    ensures 2 * Join(z, s - 1, k) + c == Join(z, s, 2 * k + c)
  {
    Regroup(z, 2, Pow2(s - 1));
  }

  lemma OrUnfold(x: nat, y: nat)
    ensures Or(x, y) == 2 * Or(x / 2, y / 2) + Max(x % 2, y % 2)
  {
    if x == 0 && y == 0 { OrZero(0); }
  }

  lemma {:induction false} OrJoin(x: nat, y: nat, s: nat, i: nat, j: nat)
    requires i < Pow2(s) && j < Pow2(s)
    ensures Or(Join(x, s, i), Join(y, s, j)) == Join(Or(x, y), s, Or(i, j))
    decreases s
  {
    if s == 0 {
      OrZero(0);
    } else {
      OrJoin(x, y, s - 1, i / 2, j / 2);
      JoinHalf(x, s, i);
      JoinHalf(y, s, j);
      OrUnfold(Join(x, s, i), Join(y, s, j));
      OrUnfold(i, j);
      JoinDouble(Or(x, y), s, Or(i / 2, j / 2), Max(i % 2, j % 2));
    }
  }

  lemma OrLow(z: nat, s: nat, off: nat)
    requires off < Pow2(s)
    ensures Or(Join(z, s, 0), off) == Join(z, s, off)
  {
    OrJoin(z, 0, s, 0, off);
    OrZero(z);
    OrComm(0, off);
    OrZero(off);
  }

  lemma OrBase(p: nat, s: nat, k: nat)
    requires Aligned(p, s) && k < Pow2(s)
    ensures Or(p, k) == p + k
  {
    DivBounds(p, Pow2(s));
    OrLow(Shr(p, s), s, k);
  }

  lemma JoinAdd(z: nat, s: nat, off: nat)
    ensures Join(z, s, off) == Join(z, s, 0) + off
  {
  }

  lemma OffsetDigits(k: nat, s: nat)
    ensures k == Join(Shr(k, s), s, Low(k, s))
  {
    DivBounds(k, Pow2(s));
  }

  lemma FromMultiple(v: nat, w: nat, m: nat)
    requires m > 0 && v % m == 0 && v <= w
    ensures (w - v) / m == w / m - v / m && (w - v) % m == w % m
  {
    DivBounds(v, m);
    DivBounds(w, m);
    assert (w / m - v / m) * m == w / m * m - v / m * m;
    DivUnique(w - v, m, w / m - v / m);
    DivBounds(w - v, m);
  }

  lemma SmallMod(k: nat, m: nat)
    requires k < m
    ensures k % m == k
  {
  }
}
