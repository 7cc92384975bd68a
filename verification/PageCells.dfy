/** When Pte::update asks for a flush: which entries it finds, and which it writes in their place. */
module PageCells {
  import opened Bits
  import opened Shifts
  import opened Radix
  import opened RadixGroups
  import opened RadixCells
  import opened PageMaps

  /** The entry of level l for w. */
  function Cell(f: Format, ts: Tables, w: nat, l: nat): Entry { CellOf(Fanout(f), ts, f.levels, ROOT, w, l) }

  /** There was an entry, and another one is written. */
  predicate Changes(was: Entry, e: Entry) { was != Empty && was != e }

  ghost predicate SameCells(f: Format, was: Tables, now: Tables, l: nat) {
    forall w: nat {:trigger Cell(f, now, w, l)} :: Cell(f, now, w, l) == Cell(f, was, w, l)
  }

  lemma SameCellsNext(f: Format, was: Tables, mid: Tables, now: Tables, l: nat)
    requires SameCells(f, was, mid, l) && SameCells(f, mid, now, l)
    ensures SameCells(f, was, now, l)
  {
  }

  lemma AddedCells(f: Format, ts: Tables, home: Homes, v: nat, l: nat, t: nat, page: nat, n: nat)
    requires Sound(f, ts, home) && l > 0 && Reaches(f, ts, home, v, l, t) && page !in ts && n < l
    requires At(ts, t, Index(Fanout(f), v, l)) == Empty
    ensures t in ts && Index(Fanout(f), v, l) < |ts[t]|
    ensures SameCells(f, ts, Linked(Fanout(f), ts, t, Index(Fanout(f), v, l), page), n)
  {
    var d, i := Fanout(f), Index(Fanout(f), v, l);
    ReachedTable(f, ts, home, v, l, t);
    PlaceDepth(d, f.levels, v, l);
    forall w: nat ensures Cell(f, Linked(d, ts, t, i, page), w, n) == Cell(f, ts, w, n) {
      LinkedCell(d, f.levels, ts, home, t, i, page, f.levels, ROOT, w, n);
    }
  }

  /** No address that shares the table of v at level n has an entry there. */
  ghost predicate NoCells(f: Format, ts: Tables, v: nat, n: nat) {
    forall w: nat | PlaceOf(Fanout(f), f.levels, w, n) == PlaceOf(Fanout(f), f.levels, v, n) ::
      Cell(f, ts, w, n) == Empty
  }

  lemma AbsentCells(f: Format, ts: Tables, home: Homes, v: nat, l: nat, t: nat, n: nat)
    requires Reaches(f, ts, home, v, l, t) && n < l && At(ts, t, Index(Fanout(f), v, l)) == Empty
    ensures NoCells(f, ts, v, n)
  {
    var d := Fanout(f);
    forall w: nat | PlaceOf(d, f.levels, w, n) == PlaceOf(d, f.levels, v, n) ensures Cell(f, ts, w, n) == Empty {
      SamePlaceUp(d, f.levels, v, w, n, l);
      ReachSamePlace(d, f.levels, ts, f.levels, ROOT, v, w, l, t);
      SameIndex(d, f.levels, v, w, n, l);
      NoCellBehind(d, ts, f.levels, ROOT, w, l, t, n);
    }
  }

  // ----- one entry

  /** Only the addresses below entry i of the table of v have another entry of level l now. */
  ghost predicate CellsKept(f: Format, was: Tables, now: Tables, v: nat, l: nat, i: nat) {
    forall w: nat {:trigger Cell(f, now, w, l)} |
        !Hits(Fanout(f), f.levels, w, l, PlaceOf(Fanout(f), f.levels, v, l), i) ::
      Cell(f, now, w, l) == Cell(f, was, w, l)
  }

  predicate OthersKept(was: Tables, now: Tables, t: nat, i: nat, n: nat) {
    forall j | 0 <= j < n && j != i :: At(now, t, j) == At(was, t, j)
  }

  lemma OverwroteCells(f: Format, ts: Tables, home: Homes, v: nat, l: nat, t: nat, i: nat, e: Entry, drop: bool)
    requires Sound(f, ts, home) && Reaches(f, ts, home, v, l, t) && i < Fanout(f)
    ensures t in ts && i < |ts[t]|
    ensures var now := Overwritten(ts, t, i, e, drop);
            CellsKept(f, ts, now, v, l, i) && OthersKept(ts, now, t, i, Fanout(f))
  {
    ReachedTable(f, ts, home, v, l, t);
    var d, now := Fanout(f), Overwritten(ts, t, i, e, drop);
    forall w: nat | !Hits(d, f.levels, w, l, PlaceOf(d, f.levels, v, l), i)
      ensures Cell(f, now, w, l) == Cell(f, ts, w, l) {
      OverwrittenCell(d, f.levels, ts, home, v, l, t, i, e, drop, w);
    }
  }

  // ----- a group of entries

  predicate SlotChanges(f: Format, ts: Tables, v: nat, l: nat, r: nat, p: nat, a: nat, t: nat, j: nat) {
    Changes(At(ts, t, Index(Fanout(f), v, l) + j), NewEntry(f, l, r, p, a, j))
  }

  /** After the first k entries: a flush is asked for exactly if one of them was there and was another one. */
  ghost predicate GroupCells(f: Format, was: Tables, now: Tables, v: nat, l: nat, r: nat, p: nat, a: nat, t: nat,
                             k: nat, flush: bool) {
    && (forall w: nat {:trigger Cell(f, now, w, l)} | !InGroup(Fanout(f), f.levels, v, w, l, k) ::
          Cell(f, now, w, l) == Cell(f, was, w, l))
    && (forall j | Index(Fanout(f), v, l) + k <= j < Index(Fanout(f), v, l) + Pow2(r) :: At(now, t, j) == At(was, t, j))
    && (flush <==> l > 0 && exists j: nat :: j < k && SlotChanges(f, was, v, l, r, p, a, t, j))
  }

  lemma GroupCellsStart(f: Format, ts: Tables, v: nat, l: nat, r: nat, p: nat, a: nat, t: nat)
    ensures GroupCells(f, ts, ts, v, l, r, p, a, t, 0, false)
  {
  }

  lemma GroupCellsNext(f: Format, was: Tables, mid: Tables, now: Tables, v: nat, l: nat, r: nat, p: nat, a: nat,
                       t: nat, k: nat, flush: bool, more: bool)
    requires k < Pow2(r) && Index(Fanout(f), v, l) + Pow2(r) <= Fanout(f)
    requires GroupCells(f, was, mid, v, l, r, p, a, t, k, flush)
    requires CellsKept(f, mid, now, v, l, Index(Fanout(f), v, l) + k)
    requires OthersKept(mid, now, t, Index(Fanout(f), v, l) + k, Fanout(f))
    requires more <==> l > 0 && SlotChanges(f, mid, v, l, r, p, a, t, k)
    ensures GroupCells(f, was, now, v, l, r, p, a, t, k + 1, flush || more)
  {
    GroupGrows(Fanout(f), f.levels, v, l, k);
    assert SlotChanges(f, mid, v, l, r, p, a, t, k) <==> SlotChanges(f, was, v, l, r, p, a, t, k);
  }

  // ----- a window

  /** The entry that is written for w when the window at v is mapped to p. */
  function NewCell(f: Format, l: nat, r: nat, v: nat, p: nat, a: nat, w: nat): Entry {
    if a == 0 || w < v then Empty
    else
      NatProduct((w - v) / Width(Fanout(f), l), Width(Fanout(f), l));
      Leaf(p + (w - v) / Width(Fanout(f), l) * Width(Fanout(f), l), a, if f.grouped then r else 0)
  }

  lemma SlotOf(f: Format, v: nat, l: nat, r: nat, o: nat, p: nat, a: nat, w: nat)
    requires AlignedWindow(f, v, l, r, o, p) && v <= w < v + Pow2(o)
    ensures InGroup(Fanout(f), f.levels, v, w, l, Pow2(r))
    ensures NewEntry(f, l, r, p, a, Index(Fanout(f), w, l) - Index(Fanout(f), v, l)) == NewCell(f, l, r, v, p, a, w)
  {
    Window(f, v, l, r, o, p, w);
    SpaceBound(f);
    IndexDifference(Fanout(f), f.levels, v, w, l);
    OrderSplit(f.bits, l, r, o);
    GroupMultiple(v, Width(Fanout(f), l), r);
    FromMultiple(v, w, Width(Fanout(f), l));
  }

  lemma GroupMultiple(v: nat, m: nat, r: nat)
    requires m > 0 && m * Pow2(r) > 0 && v % (m * Pow2(r)) == 0
    ensures v % m == 0
  {
    RadixGroups.GroupStart(v, m, r);
    DivBounds(v, m);
  }

  /** The first address below entry j of the group. */
  lemma AddressOf(f: Format, v: nat, l: nat, r: nat, o: nat, p: nat, j: nat) returns (w: nat)
    requires AlignedWindow(f, v, l, r, o, p) && j < Pow2(r)
    ensures v <= w < v + Pow2(o) && Index(Fanout(f), w, l) == Index(Fanout(f), v, l) + j
  {
    var m := Width(Fanout(f), l);
    NatProduct(j, m);
    w := v + j * m;
    OrderSplit(f.bits, l, r, o);
    assert m * Pow2(r) == Pow2(o);
    MulOrder(Pow2(r), j, m);
    GroupMultiple(v, m, r);
    FromMultiple(v, w, m);
    DivUnique(j * m, m, j);
    Window(f, v, l, r, o, p, w);
    SpaceBound(f);
    IndexDifference(Fanout(f), f.levels, v, w, l);
  }

  /** A flush is asked for exactly if some address of the n pages at b had an entry of level l and gets another one. */
  ghost predicate FlushIs(f: Format, was: Tables, b: nat, n: nat, l: nat, r: nat, p: nat, a: nat, flush: bool) {
    flush <==> l > 0 && exists w: nat :: b <= w < b + n && Changes(Cell(f, was, w, l), NewCell(f, l, r, b, p, a, w))
  }

  ghost predicate OutsideSame(f: Format, was: Tables, now: Tables, b: nat, n: nat, l: nat) {
    forall w: nat {:trigger Cell(f, now, w, l)} | w < Space(f) && !(b <= w < b + n) ::
      Cell(f, now, w, l) == Cell(f, was, w, l)
  }

  lemma WindowFlush(f: Format, was: Tables, mid: Tables, now: Tables, home: Homes, v: nat, l: nat, r: nat, o: nat,
                    p: nat, a: nat, t: nat, flush: bool)
    requires AlignedWindow(f, v, l, r, o, p) && SameCells(f, was, mid, l) && Reaches(f, mid, home, v, l, t)
    requires GroupCells(f, mid, now, v, l, r, p, a, t, Pow2(r), flush)
    ensures FlushIs(f, was, v, Pow2(o), l, r, p, a, flush) && OutsideSame(f, was, now, v, Pow2(o), l)
  {
    var d := Fanout(f);
    forall w: nat | v <= w < v + Pow2(o)
      ensures var j := Index(d, w, l) - Index(d, v, l);
              0 <= j < Pow2(r) && (SlotChanges(f, mid, v, l, r, p, a, t, j) <==>
                                   Changes(Cell(f, was, w, l), NewCell(f, l, r, v, p, a, w))) {
      CellInGroup(f, was, mid, home, v, l, r, o, p, a, t, w);
    }
    if flush {
      var j: nat :| j < Pow2(r) && SlotChanges(f, mid, v, l, r, p, a, t, j);
      var w := AddressOf(f, v, l, r, o, p, j);
      assert Changes(Cell(f, was, w, l), NewCell(f, l, r, v, p, a, w));
    }
    forall w: nat | w < Space(f) && !(v <= w < v + Pow2(o)) ensures Cell(f, now, w, l) == Cell(f, was, w, l) {
      Window(f, v, l, r, o, p, w);
      assert Cell(f, mid, w, l) == Cell(f, was, w, l);
    }
  }

  lemma CellInGroup(f: Format, was: Tables, mid: Tables, home: Homes, v: nat, l: nat, r: nat, o: nat, p: nat, a: nat,
                    t: nat, w: nat)
    requires AlignedWindow(f, v, l, r, o, p) && SameCells(f, was, mid, l) && Reaches(f, mid, home, v, l, t)
    requires v <= w < v + Pow2(o)
    ensures var j := Index(Fanout(f), w, l) - Index(Fanout(f), v, l);
            0 <= j < Pow2(r) && (SlotChanges(f, mid, v, l, r, p, a, t, j) <==>
                                 Changes(Cell(f, was, w, l), NewCell(f, l, r, v, p, a, w)))
  {
    SlotOf(f, v, l, r, o, p, a, w);
    ReachSamePlace(Fanout(f), f.levels, mid, f.levels, ROOT, v, w, l, t);
    ReachCell(Fanout(f), mid, f.levels, ROOT, w, l, t);
    assert Cell(f, mid, w, l) == Cell(f, was, w, l);
  }

  lemma NoTableFlush(f: Format, ts: Tables, v: nat, l: nat, r: nat, o: nat, p: nat, a: nat)
    requires AlignedWindow(f, v, l, r, o, p) && NoCells(f, ts, v, l)
    ensures FlushIs(f, ts, v, Pow2(o), l, r, p, a, false) && OutsideSame(f, ts, ts, v, Pow2(o), l)
  {
    forall w: nat | v <= w < v + Pow2(o) ensures Cell(f, ts, w, l) == Empty {
      Window(f, v, l, r, o, p, w);
    }
  }

  // ----- sequences of windows

  lemma NewCellShifts(f: Format, l: nat, r: nat, b: nat, m: nat, p: nat, a: nat, w: nat)
    requires b + m <= w && m % Width(Fanout(f), l) == 0
    ensures NewCell(f, l, r, b + m, p + m, a, w) == NewCell(f, l, r, b, p, a, w)
  {
    var x := Width(Fanout(f), l);
    FromMultiple(m, w - b, x);
    DivBounds(m, x);
    Distribute((w - b - m) / x, m / x, x);
  }

  /** One more chunk of order k, behind m pages that are done. */
  lemma FlushChunk(f: Format, was: Tables, mid: Tables, now: Tables, b: nat, m: nat, n: nat, l: nat, r: nat, p: nat,
                   a: nat, flush: bool, more: bool)
    requires FlushIs(f, was, b, m, l, r, p, a, flush) && OutsideSame(f, was, mid, b, m, l)
    requires FlushIs(f, mid, b + m, n, l, r, p + m, a, more) && OutsideSame(f, mid, now, b + m, n, l)
    requires m % Width(Fanout(f), l) == 0 && b + m + n <= Space(f)
    ensures FlushIs(f, was, b, m + n, l, r, p, a, flush || more) && OutsideSame(f, was, now, b, m + n, l)
  {
    forall w: nat | b + m <= w < b + m + n
      ensures Changes(Cell(f, mid, w, l), NewCell(f, l, r, b + m, p + m, a, w)) <==>
              Changes(Cell(f, was, w, l), NewCell(f, l, r, b, p, a, w)) {
      NewCellShifts(f, l, r, b, m, p, a, w);
      assert Cell(f, mid, w, l) == Cell(f, was, w, l);
    }
    forall w: nat | w < Space(f) && !(b <= w < b + m + n) ensures Cell(f, now, w, l) == Cell(f, was, w, l) {
      assert Cell(f, mid, w, l) == Cell(f, was, w, l);
    }
  }

  lemma ChunkMultiple(f: Format, l: nat, r: nat, k: nat, i: nat)
    requires k == l * f.bits + r
    ensures i * Pow2(k) % Width(Fanout(f), l) == 0
  {
    var x := Width(Fanout(f), l);
    OrderSplit(f.bits, l, r, k);
    Regroup(i, x, Pow2(r));
    assert i * Pow2(k) == (i * Pow2(r)) * x;
    DivUnique(i * Pow2(k), x, i * Pow2(r));
    DivBounds(i * Pow2(k), x);
  }
}
