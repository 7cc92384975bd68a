/** Word arithmetic of include/bits.hpp on natural numbers: powers of two, the bitwise operators the
    mapping database applies to addresses, and aligned power-of-two ranges. */
module Bits {

  function Pow2(n: nat): (r: nat)
    ensures r >= 1
  {
    if n == 0 then 1 else 2 * Pow2(n - 1)
  }

  function Max(a: int, b: int): int { if a >= b then a else b }

  function Min(a: int, b: int): int { if a <= b then a else b }

  /** Bitwise exclusive or. */
  function Xor(x: nat, y: nat): nat
    decreases x + y
  {
    if x == 0 && y == 0 then 0 else 2 * Xor(x / 2, y / 2) + (x % 2 + y % 2) % 2
  }

  /** Bitwise or. */
  function Or(x: nat, y: nat): nat
    decreases x + y
  {
    if x == 0 && y == 0 then 0 else 2 * Or(x / 2, y / 2) + Max(x % 2, y % 2)
  }

  /** A range of 2^order addresses starting at `base`. */
  predicate InRange(p: int, base: int, order: nat) { base <= p < base + Pow2(order) }

  predicate Aligned(base: int, order: nat) { base % Pow2(order) == 0 }

  /** The test written `(a ^ b) >> max (oa, ob) == 0` throughout the mapping database. */
  predicate SameBlock(a: nat, oa: nat, b: nat, ob: nat) { Xor(a, b) / Pow2(Max(oa, ob)) == 0 }

  // ----- division by powers of two

  lemma {:induction false} MulLe(x: int, y: int, d: int)
    requires x <= y && d >= 0
    ensures x * d <= y * d
    decreases y - x
  {
    if x < y {
      MulLe(x, y - 1, d);
      assert y * d == (y - 1) * d + d;
    }
  }

  lemma MulOrder(a: int, b: int, d: int)
    requires d > 0 && a > b
    ensures a * d >= b * d + d
  {
    MulLe(b + 1, a, d);
    assert (b + 1) * d == b * d + d;
  }

  lemma DivUnique(x: int, d: int, q: int)
    requires d > 0 && q * d <= x < q * d + d
    ensures x / d == q
  {
    DivBounds(x, d);
    if q > x / d {
      MulOrder(q, x / d, d);
    } else if q < x / d {
      MulOrder(x / d, q, d);
    }
  }

  lemma DivBounds(x: int, d: int)
    requires d > 0
    ensures (x / d) * d <= x < (x / d) * d + d
    ensures x % d == x - (x / d) * d
  {
  }

  lemma Regroup(q: int, a: int, b: int)
    ensures (q * b) * a == q * (a * b)
    ensures (q * b + (b - 1)) * a + a == q * (a * b) + a * b
  {
  }

  lemma DivDiv(x: int, a: int, b: int)
    requires a > 0 && b > 0
    ensures a * b > 0 && (x / a) / b == x / (a * b)
  {
    var k := x / a;
    var q := k / b;
    DivBounds(x, a);
    DivBounds(k, b);
    MulLe(q * b, k, a);
    MulLe(k, q * b + (b - 1), a);
    Regroup(q, a, b);
    DivUnique(x, a * b, q);
  }

  lemma HalfFirst(x: int, k: nat)
    requires k > 0
    ensures x / Pow2(k) == (x / 2) / Pow2(k - 1)
  {
    DivDiv(x, 2, Pow2(k - 1));
  }

  lemma {:induction false} Pow2Add(a: nat, b: nat)
    ensures Pow2(a + b) == Pow2(a) * Pow2(b)
  {
    if a > 0 { Pow2Add(a - 1, b); }
  }

  lemma Pow2Mono(a: nat, b: nat)
    requires a <= b
    ensures Pow2(a) <= Pow2(b)
    ensures Pow2(b) == Pow2(a) * Pow2(b - a)
    ensures a < b ==> 2 * Pow2(a) <= Pow2(b)
    decreases b - a
  {
    Pow2Add(a, b - a);
    if a < b { Pow2Mono(a, b - 1); }
  }

  /** Blocks of a larger order are unions of blocks of a smaller one. */
  lemma DivCoarser(x: int, y: int, a: nat, b: nat)
    requires a <= b && x / Pow2(a) == y / Pow2(a)
    ensures x / Pow2(b) == y / Pow2(b)
  {
    Pow2Mono(a, b);
    DivDiv(x, Pow2(a), Pow2(b - a));
    DivDiv(y, Pow2(a), Pow2(b - a));
  }

  lemma AlignedFiner(x: int, a: nat, b: nat)
    requires a <= b && Aligned(x, b)
    ensures Aligned(x, a)
  {
    Pow2Mono(a, b);
    var q := x / Pow2(b);
    DivBounds(x, Pow2(b));
    assert x == (q * Pow2(b - a)) * Pow2(a);
    DivUnique(x, Pow2(a), q * Pow2(b - a));
    DivBounds(x, Pow2(a));
  }

  lemma AlignedAdd(x: int, y: int, o: nat)
    requires Aligned(x, o) && Aligned(y, o)
    ensures Aligned(x + y, o) && Aligned(x - y, o)
  {
    var d := Pow2(o);
    DivBounds(x, d);
    DivBounds(y, d);
    var q, s := x / d, y / d;
    assert x + y == (q + s) * d && x - y == (q - s) * d;
    DivUnique(x + y, d, q + s);
    DivUnique(x - y, d, q - s);
    DivBounds(x + y, d);
    DivBounds(x - y, d);
  }

  lemma AlignedMultiple(k: int, o: nat)
    ensures Aligned(k * Pow2(o), o)
  {
    DivUnique(k * Pow2(o), Pow2(o), k);
    DivBounds(k * Pow2(o), Pow2(o));
  }

  // ----- aligned ranges

  lemma InRangeDiv(p: int, base: int, order: nat)
    requires Aligned(base, order)
    ensures InRange(p, base, order) <==> p / Pow2(order) == base / Pow2(order)
  {
    var d := Pow2(order);
    DivBounds(base, d);
    DivBounds(p, d);
    if InRange(p, base, order) { DivUnique(p, d, base / d); }
  }

  /** Two aligned ranges are nested or disjoint: the smaller one lies inside the larger one as soon as
      they share one address. */
  lemma Nested(p: int, a: int, oa: nat, b: int, ob: nat)
    requires Aligned(a, oa) && Aligned(b, ob) && oa <= ob
    requires InRange(p, a, oa) && InRange(p, b, ob)
    ensures b <= a && a + Pow2(oa) <= b + Pow2(ob)
  {
    InRangeDiv(p, a, oa);
    InRangeDiv(p, b, ob);
    DivCoarser(p, a, oa, ob);
    InRangeDiv(a, b, ob);
    var last := a + Pow2(oa) - 1;
    InRangeDiv(last, a, oa);
    DivCoarser(last, a, oa, ob);
    InRangeDiv(last, b, ob);
  }

  // ----- the bitwise operators

  lemma {:induction false} XorZero(x: nat, y: nat)
    ensures Xor(x, y) == 0 <==> x == y
    decreases x + y
  {
    if x != 0 || y != 0 { XorZero(x / 2, y / 2); }
  }

  lemma XorHalf(x: nat, y: nat)
    ensures Xor(x, y) / 2 == Xor(x / 2, y / 2)
  {
  }

  lemma {:induction false} XorShift(x: nat, y: nat, k: nat)
    ensures Xor(x, y) / Pow2(k) == 0 <==> x / Pow2(k) == y / Pow2(k)
  {
    if k == 0 {
      XorZero(x, y);
    } else {
      XorShift(x / 2, y / 2, k - 1);
      XorHalf(x, y);
      HalfFirst(x, k);
      HalfFirst(y, k);
      HalfFirst(Xor(x, y), k);
    }
  }

  /** The bit test decides whether two aligned ranges share an address. */
  lemma SameBlockIsOverlap(a: nat, oa: nat, b: nat, ob: nat)
    requires Aligned(a, oa) && Aligned(b, ob)
    ensures SameBlock(a, oa, b, ob) <==> a < b + Pow2(ob) && b < a + Pow2(oa)
    ensures SameBlock(a, oa, b, ob) && oa <= ob ==> b <= a && a + Pow2(oa) <= b + Pow2(ob)
    ensures SameBlock(a, oa, b, ob) && ob <= oa ==> a <= b && b + Pow2(ob) <= a + Pow2(oa)
  {
    XorShift(a, b, Max(oa, ob));
    if oa <= ob {
      InRangeDiv(a, b, ob);
      if a < b + Pow2(ob) && b < a + Pow2(oa) { Nested(Max(a, b), a, oa, b, ob); }
      if InRange(a, b, ob) { Nested(a, a, oa, b, ob); }
    } else {
      InRangeDiv(b, a, oa);
      if a < b + Pow2(ob) && b < a + Pow2(oa) { Nested(Max(a, b), b, ob, a, oa); }
      if InRange(b, a, oa) { Nested(b, b, ob, a, oa); }
    }
  }

  lemma {:induction false} OrSelf(x: nat)
    ensures Or(x, x) == x
  {
    if x != 0 { OrSelf(x / 2); }
  }

  lemma {:induction false} OrComm(x: nat, y: nat)
    ensures Or(x, y) == Or(y, x)
    decreases x + y
  {
    if x != 0 || y != 0 { OrComm(x / 2, y / 2); }
  }

  lemma AlignedHalf(x: nat, k: nat)
    requires k > 0 && Aligned(x, k)
    ensures x % 2 == 0 && Aligned(x / 2, k - 1)
  {
    var q := x / Pow2(k);
    DivBounds(x, Pow2(k));
    Regroup(q, Pow2(k - 1), 2);
    assert x == 2 * (q * Pow2(k - 1));
    AlignedMultiple(q, k - 1);
  }

  /** Or-ing the base of an aligned block into an address of that block changes nothing. */
  lemma {:induction false} OrInBlock(x: nat, y: nat, k: nat)
    requires Aligned(x, k) && x / Pow2(k) == y / Pow2(k)
    ensures Or(x, y) == y
  {
    if k == 0 {
      OrSelf(x);
    } else {
      AlignedHalf(x, k);
      HalfFirst(x, k);
      HalfFirst(y, k);
      OrInBlock(x / 2, y / 2, k - 1);
    }
  }

  /** For overlapping aligned ranges the or of the two bases is the larger base. */
  lemma OrOfOverlap(a: nat, oa: nat, b: nat, ob: nat)
    requires Aligned(a, oa) && Aligned(b, ob) && SameBlock(a, oa, b, ob)
    ensures Or(a, b) == Max(a, b)
  {
    XorShift(a, b, Max(oa, ob));
    SameBlockIsOverlap(a, oa, b, ob);
    if oa <= ob {
      OrInBlock(b, a, ob);
      OrComm(a, b);
    } else {
      OrInBlock(a, b, oa);
    }
  }

  // ----- bit scans

  /** The position of the highest set bit; `bsr` is not defined on 0. */
  function Msb(v: nat): nat
    requires v > 0
  {
    if v == 1 then 0 else 1 + Msb(v / 2)
  }

  /** The position of the lowest set bit. */
  function Lsb(v: nat): nat
    requires v > 0
  {
    if v % 2 == 1 then 0 else 1 + Lsb(v / 2)
  }

  lemma {:induction false} MsbBounds(v: nat)
    requires v > 0
    ensures Pow2(Msb(v)) <= v < Pow2(Msb(v) + 1)
  {
    if v > 1 { MsbBounds(v / 2); }
  }

  lemma MsbUnique(v: nat, n: nat)
    requires Pow2(n) <= v < Pow2(n + 1)
    ensures v > 0 && Msb(v) == n
  {
    MsbBounds(v);
    if Msb(v) < n { Pow2Mono(Msb(v) + 1, n); }
    if Msb(v) > n { Pow2Mono(n + 1, Msb(v)); }
  }

  lemma {:induction false} LsbAligned(v: nat)
    requires v > 0
    ensures Aligned(v, Lsb(v)) && Pow2(Lsb(v)) <= v
  {
    if v % 2 == 0 {
      LsbAligned(v / 2);
      var d := Pow2(Lsb(v / 2));
      DivBounds(v / 2, d);
      var q := v / 2 / d;
      assert v == q * Pow2(Lsb(v)) by { Regroup(q, 2, d); }
      AlignedMultiple(q, Lsb(v));
    }
  }

  /** No larger order divides v. */
  lemma {:induction false} LsbMaximal(v: nat, k: nat)
    requires v > 0 && Aligned(v, k)
    ensures k <= Lsb(v)
  {
    if k > 0 {
      AlignedHalf(v, k);
      LsbMaximal(v / 2, k - 1);
    }
  }
}
