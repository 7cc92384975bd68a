/** The address arithmetic of Pte::update: which addresses a group of entries covers, and what its leaves say. */
module RadixGroups {
  import opened Bits
  import opened Shifts
  import opened Radix

  lemma IndexSplit(d: Fan, v: nat, l: nat)
    ensures v / Width(d, l + 1) == v / Width(d, l) / d
    ensures v / Width(d, l) == v / Width(d, l + 1) * d + Index(d, v, l)
  {
    DivDiv(v, Width(d, l), d);
    DivBounds(v / Width(d, l), d);
  }

  lemma DigitsUnique(d: Fan, a: int, b: int, i: nat, j: nat)
    requires i < d && j < d
    ensures a * d + i == b * d + j <==> a == b && i == j
  {
    DivUnique(a * d + i, d, a);
    DivUnique(b * d + j, d, b);
  }

  /** Within the address space the place of a table and the address divided by its span say the same. */
  lemma {:induction false} PlaceIsPrefix(d: Fan, top: nat, v: nat, w: nat, l: nat)
    requires v < Width(d, top + 1) && w < Width(d, top + 1) && l <= top
    ensures PlaceOf(d, top, v, l) == PlaceOf(d, top, w, l) <==> v / Width(d, l + 1) == w / Width(d, l + 1)
    decreases top - l
  {
    if l == top {
      DivUnique(v, Width(d, l + 1), 0);
      DivUnique(w, Width(d, l + 1), 0);
    } else {
      PlaceIsPrefix(d, top, v, w, l + 1);
      IndexSplit(d, v, l + 1);
      IndexSplit(d, w, l + 1);
      DigitsUnique(d, v / Width(d, l + 2), w / Width(d, l + 2), Index(d, v, l + 1), Index(d, w, l + 1));
    }
  }

  lemma OneMoreLevel(l: nat, b: nat)
    requires l > 0
    ensures l * b == b + (l - 1) * b && (l - 1) * b >= 0
  {
    NatProduct(l - 1, b);
  }

  lemma {:induction false} WidthIsPow2(b: nat, l: nat)
    ensures l * b >= 0 && Width(Pow2(b), l) == Pow2(l * b)
  {
    NatProduct(l, b);
    if l > 0 {
      WidthIsPow2(b, l - 1);
      OneMoreLevel(l, b);
      Pow2Add(b, (l - 1) * b);
    }
  }

  /** An order is a number of levels and a group within one. */
  lemma OrderSplit(b: nat, l: nat, r: nat, o: nat)
    requires o == l * b + r
    ensures Group(Pow2(b), l, r) == Pow2(o)
  {
    WidthIsPow2(b, l);
    Pow2Add(l * b, r);
  }

  /** Address w lies in the aligned group of n = 2^r entries that starts at v. */
  predicate InGroup(d: Fan, top: nat, v: nat, w: nat, l: nat, n: nat) {
    && PlaceOf(d, top, w, l) == PlaceOf(d, top, v, l)
    && Index(d, v, l) <= Index(d, w, l) < Index(d, v, l) + n
  }

  lemma GroupGrows(d: Fan, top: nat, v: nat, l: nat, k: nat)
    ensures forall w: nat :: InGroup(d, top, v, w, l, k + 1) <==>
                             InGroup(d, top, v, w, l, k)
                             || Hits(d, top, w, l, PlaceOf(d, top, v, l), Index(d, v, l) + k)
  {
  }

  /** Numbers in an aligned block of n share their quotient by a multiple of n. */
  lemma BlockDigits(x: int, y: int, r: nat, b: nat)
    requires r <= b && Aligned(x, r)
    ensures x <= y < x + Pow2(r) <==> y / Pow2(b) == x / Pow2(b) && x % Pow2(b) <= y % Pow2(b) < x % Pow2(b) + Pow2(r)
    ensures x % Pow2(b) + Pow2(r) <= Pow2(b)
  {
    var d, n := Pow2(b), Pow2(r);
    DivBounds(x, d);
    DivBounds(y, d);
    var base := x / d * d;
    AlignedMultiple(x / d, b);
    Nested(x, x, r, base, b);
    if x <= y < x + n { DivUnique(y, d, x / d); }
  }

  lemma DivOrder(w: nat, m: nat, x: nat, n: nat)
    requires m > 0
    ensures x * m <= w < (x + n) * m <==> x <= w / m < x + n
  {
    DivBounds(w, m);
    if x <= w / m { MulLe(x, w / m, m); } else { MulOrder(x, w / m, m); }
    if w / m < x + n { MulOrder(x + n, w / m, m); } else { MulLe(x + n, w / m, m); }
  }

  lemma GroupRange(b: nat, top: nat, v: nat, w: nat, l: nat, r: nat)
    requires r <= b && l <= top && v < Width(Pow2(b), top + 1) && w < Width(Pow2(b), top + 1)
    requires v % Group(Pow2(b), l, r) == 0
    ensures InGroup(Pow2(b), top, v, w, l, Pow2(r)) <==> v <= w < v + Group(Pow2(b), l, r)
    ensures Index(Pow2(b), v, l) + Pow2(r) <= Pow2(b)
  {
    var d: Fan, m := Pow2(b), Width(Pow2(b), l);
    RangeOfBlock(v, w, m, r);
    BlockDigits(v / m, w / m, r, b);
    PlaceIsPrefix(d, top, v, w, l);
    IndexSplit(d, v, l);
    IndexSplit(d, w, l);
  }

  lemma RangeOfDigit(w: nat, m: nat, x: nat, n: nat)
    requires m > 0
    ensures x * m <= w < x * m + m * n <==> x <= w / m < x + n
  {
    DivOrder(w, m, x, n);
    assert (x + n) * m == x * m + m * n;
  }

  lemma RangeOfBlock(v: nat, w: nat, m: nat, r: nat)
    requires m > 0 && m * Pow2(r) > 0 && v % (m * Pow2(r)) == 0
    ensures Aligned(v / m, r)
    ensures v <= w < v + m * Pow2(r) <==> v / m <= w / m < v / m + Pow2(r)
  {
    GroupStart(v, m, r);
    RangeOfDigit(w, m, v / m, Pow2(r));
  }

  /** A multiple of m * 2^r is m times a multiple of 2^r. */
  lemma GroupStart(v: nat, m: nat, r: nat)
    requires m > 0 && m * Pow2(r) > 0 && v % (m * Pow2(r)) == 0
    ensures Aligned(v / m, r) && v == v / m * m
  {
    var g := m * Pow2(r);
    var q := v / g;
    DivBounds(v, g);
    Regroup(q, m, Pow2(r));
    assert v == (q * Pow2(r)) * m;
    DivUnique(v, m, q * Pow2(r));
    AlignedMultiple(q, r);
  }

  // ----- the leaves of a group

  /** Entry j of a group of order r at level l that maps to frame p; `grouped` is the format that records the order. */
  function GroupLeaf(d: Fan, l: nat, r: nat, grouped: bool, p: nat, a: nat, j: nat): Entry {
    NatProduct(j, Width(d, l));
    Leaf(p + j * Width(d, l), a, if grouped then r else 0)
  }

  /** Or-ing the frame of an entry with the offset in the whole group counts the entry's own digit once. */
  lemma OrMiddle(q: nat, r: nat, i: nat, s: nat, off: nat)
    requires i < Pow2(r) && off < Pow2(s)
    ensures Or(Join(Join(q, r, i), s, 0), Join(i, s, off)) == Join(Join(q, r, i), s, off)
  {
    var x := Join(q, r, i);
    OrJoin(x, i, s, 0, off);
    OrLow(q, r, i);
    OrJoin(q, 0, r, i, i);
    OrZero(q);
    OrSelf(i);
    OrComm(0, off);
    OrZero(off);
  }

  lemma FrameDigits(p: nat, s: nat, r: nat, i: nat)
    requires Aligned(p, s + r)
    ensures p + Join(i, s, 0) == Join(Join(Shr(p, s + r), r, i), s, 0)
  {
    var q := Shr(p, s + r);
    DivBounds(p, Pow2(s + r));
    Pow2Add(s, r);
    Regroup(q, Pow2(s), Pow2(r));
    Distribute(q * Pow2(r), i, Pow2(s));
  }

  lemma ShrBelow(k: nat, s: nat, r: nat)
    requires k < Pow2(s + r)
    ensures Shr(k, s) < Pow2(r)
  {
    Pow2Add(r, s);
    BelowQuotient(k, Pow2(s), Pow2(r));
  }

  lemma BelowQuotient(k: nat, m: nat, n: nat)
    requires m > 0 && k < n * m
    ensures k / m < n
  {
    DivBounds(k, m);
    if k / m >= n { MulLe(n, k / m, m); }
  }

  lemma OrDigits(p: nat, q: nat, r: nat, i: nat, s: nat, off: nat)
    requires i < Pow2(r) && off < Pow2(s) && p + Join(i, s, 0) == Join(Join(q, r, i), s, 0)
    ensures Or(p + Join(i, s, 0), Join(i, s, off)) == p + Join(i, s, off)
    ensures Or(p + Join(i, s, 0), off) == p + Join(i, s, off)
  {
    OrMiddle(q, r, i, s, off);
    OrLow(Join(q, r, i), s, off);
    JoinAdd(Join(q, r, i), s, off);
    JoinAdd(i, s, off);
  }

  /** The two formats on a block of 2^(s + r) pages at p, for the page at offset k. */
  lemma OrFormats(p: nat, s: nat, r: nat, k: nat)
    requires Aligned(p, s + r) && k < Pow2(s + r)
    ensures Or(p + Join(Shr(k, s), s, 0), k) == p + k
    ensures Or(p + Join(Shr(k, s), s, 0), Low(k, s)) == p + k
  {
    OffsetDigits(k, s);
    ShrBelow(k, s, r);
    FrameDigits(p, s, r, Shr(k, s));
    OrDigits(p, Shr(p, s + r), r, Shr(k, s), s, Low(k, s));
  }

  /** Clearing bits that the frame of an entry does not have changes nothing above level 0, and gives the frame of the
      whole group at level 0. */
  lemma ClearedFrame(p: nat, i: nat, s: nat, r: nat)
    requires Aligned(p, s + r) && i < Pow2(r) && (s == 0 || r <= s)
    ensures RoundDown(p + Join(i, s, 0), Pow2(r)) == if s == 0 then p else p + Join(i, s, 0)
  {
    AlignedFiner(p, r, s + r);
    if s == 0 {
      RoundWithin(p, i, Pow2(r));
    } else {
      JoinAligned(i, s, r);
      AlignedAdd(p, Join(i, s, 0), r);
    }
  }

  lemma RoundWithin(p: nat, i: nat, m: nat)
    requires i < m && p % m == 0
    ensures RoundDown(p + i, m) == p
  {
    FromMultiple(p, p + i, m);
    SmallMod(i, m);
  }

  lemma JoinAligned(i: nat, s: nat, r: nat)
    requires r <= s
    ensures Aligned(Join(i, s, 0), r)
  {
    AlignedMultiple(i, s);
    AlignedFiner(i * Pow2(s), r, s);
  }

  /** The two formats agree: or-ing the frame and the offset as the lookup does gives the page at offset k. */
  lemma EitherFormat(p: nat, s: nat, r: nat, k: nat, grouped: bool)
    requires Aligned(p, s + r) && k < Pow2(s + r) && (s == 0 || r <= s)
    ensures var frame := p + Join(Shr(k, s), s, 0);
            if grouped then Or(RoundDown(frame, Pow2(r)), k) == p + k
            else Or(RoundDown(frame, Pow2(0)), Low(k, s)) == p + k
  {
    OrFormats(p, s, r, k);
    if grouped {
      ShrBelow(k, s, r);
      ClearedFrame(p, Shr(k, s), s, r);
      if s == 0 { OrBase(p, r, k); }
    } else {
      RoundByOne(p + Join(Shr(k, s), s, 0));
    }
  }

  lemma RoundByOne(f: nat)
    ensures RoundDown(f, Pow2(0)) == f
  {
  }

  lemma LeafMeaning(b: nat, l: nat, r: nat, grouped: bool, p: nat, a: nat, v: nat, w: nat)
    requires r <= b && v % Group(Pow2(b), l, r) == 0 && p % Group(Pow2(b), l, r) == 0
    requires v <= w < v + Group(Pow2(b), l, r) && v / Width(Pow2(b), l) <= w / Width(Pow2(b), l)
    ensures var e := GroupLeaf(Pow2(b), l, r, grouped, p, a, w / Width(Pow2(b), l) - v / Width(Pow2(b), l));
            ReadLeaf(Pow2(b), l, e, w) == Mapped(p + (w - v), a, Group(Pow2(b), l, if grouped then r else 0))
  {
    NatProduct(l, b);
    var s: nat := l * b;
    WidthIsPow2(b, l);
    OrderSplit(b, l, r, s + r);
    OrderSplit(b, l, 0, s);
    if l > 0 { OneMoreLevel(l, b); }
    LeafInBlock(Pow2(b), l, s, r, grouped, p, a, v, w);
  }

  lemma OffsetInBlock(v: nat, w: nat, s: nat, r: nat)
    requires v % Pow2(s + r) == 0 && v <= w < v + Pow2(s + r)
    ensures w / Pow2(s) - v / Pow2(s) == Shr(w - v, s) && w % Pow2(s) == Low(w - v, s) && w % Pow2(s + r) == w - v
  {
    AlignedFiner(v, s, s + r);
    FromMultiple(v, w, Pow2(s));
    FromMultiple(v, w, Pow2(s + r));
    SmallMod(w - v, Pow2(s + r));
  }

  lemma LeafInBlock(d: Fan, l: nat, s: nat, r: nat, grouped: bool, p: nat, a: nat, v: nat, w: nat)
    requires Width(d, l) == Pow2(s) && Group(d, l, r) == Pow2(s + r) && Group(d, l, 0) == Pow2(s) && (s == 0 || r <= s)
    requires v % Pow2(s + r) == 0 && p % Pow2(s + r) == 0 && v <= w < v + Pow2(s + r)
    ensures w / Width(d, l) - v / Width(d, l) == Shr(w - v, s)
    ensures ReadLeaf(d, l, GroupLeaf(d, l, r, grouped, p, a, Shr(w - v, s)), w)
            == Mapped(p + (w - v), a, Pow2(if grouped then s + r else s))
  {
    OffsetInBlock(v, w, s, r);
    var k := w - v;
    LeafFrame(d, l, s, r, grouped, p, a, Shr(k, s));
    if grouped {
      assert w % Group(d, l, r) == k;
      ReadBlock(d, l, s, r, true, p, a, k, w);
    } else {
      assert w % Group(d, l, 0) == Low(k, s);
      ReadBlock(d, l, s, r, false, p, a, k, w);
    }
  }

  lemma LeafFrame(d: Fan, l: nat, s: nat, r: nat, grouped: bool, p: nat, a: nat, j: nat)
    requires Width(d, l) == Pow2(s)
    ensures GroupLeaf(d, l, r, grouped, p, a, j) == Leaf(p + Join(j, s, 0), a, if grouped then r else 0)
  {
  }

  lemma ReadBlock(d: Fan, l: nat, s: nat, r: nat, grouped: bool, p: nat, a: nat, k: nat, w: nat)
    requires Aligned(p, s + r) && k < Pow2(s + r) && (s == 0 || r <= s)
    requires w % Group(d, l, if grouped then r else 0) == if grouped then k else Low(k, s)
    ensures ReadLeaf(d, l, Leaf(p + Join(Shr(k, s), s, 0), a, if grouped then r else 0), w)
            == Mapped(p + k, a, Group(d, l, if grouped then r else 0))
  {
    EitherFormat(p, s, r, k, grouped);
  }

  lemma IndexDifference(d: Fan, top: nat, v: nat, w: nat, l: nat)
    requires l <= top && v < Width(d, top + 1) && w < Width(d, top + 1)
             && PlaceOf(d, top, w, l) == PlaceOf(d, top, v, l)
    ensures w / Width(d, l) - v / Width(d, l) == Index(d, w, l) - Index(d, v, l)
  {
    PlaceIsPrefix(d, top, v, w, l);
    IndexSplit(d, v, l);
    IndexSplit(d, w, l);
  }

  /** The leaf for address w in the window of 2^o pages at v says that w maps to its offset from p, and how large a page
      it is on: the window, or one entry where the order is not recorded. */
  lemma WindowLeaf(b: nat, top: nat, l: nat, r: nat, o: nat, grouped: bool, p: nat, a: nat, v: nat, w: nat)
    requires r <= b && o == l * b + r && l <= top && v < Width(Pow2(b), top + 1) && w < Width(Pow2(b), top + 1)
    requires Aligned(v, o) && Aligned(p, o) && v <= w < v + Pow2(o) && InGroup(Pow2(b), top, v, w, l, Pow2(r))
    ensures var e := GroupLeaf(Pow2(b), l, r, grouped, p, a, Index(Pow2(b), w, l) - Index(Pow2(b), v, l));
            ReadLeaf(Pow2(b), l, e, w) == Mapped(p + (w - v), a, Pow2(if grouped then o else o - r))
  {
    OrderSplit(b, l, r, o);
    OrderSplit(b, l, 0, o - r);
    IndexDifference(Pow2(b), top, v, w, l);
    LeafMeaning(b, l, r, grouped, p, a, v, w);
  }
}
