/** Page tables as flat maps: what walks, group writes and updates of windows do to the translation of every address. */
module PageMaps {
  import opened Bits
  import opened Shifts
  import opened Radix
  import opened RadixGroups
  import opened RadixLeaks

  /** Levels, index bits per level, and whether entries record the order of their group. */
  datatype Format = Format(levels: nat, bits: nat, grouped: bool)

  predicate Proper(f: Format) { f.levels > 0 && f.bits > 0 }

  /** The entries of a table. */
  function Fanout(f: Format): Fan { Pow2(f.bits) }

  /** The level at which pages of order k are entries. */
  function LevelOf(f: Format, k: nat): nat
    requires f.bits > 0
  {
    DivNat(k, f.bits);
    k / f.bits
  }

  /** The order of their groups there. */
  function RestOf(f: Format, k: nat): nat
    requires f.bits > 0
  {
    DivNat(k, f.bits);
    k % f.bits
  }

  /** The pages of the address space. */
  function Space(f: Format): nat { Width(Fanout(f), f.levels) }

  /** The translation of w. */
  function View(f: Format, ts: Tables, w: nat): Mapping { Resolve(Fanout(f), ts, f.levels, ROOT, w) }

  /** No large page lies above level n on the way of w. */
  predicate NoLargePage(f: Format, ts: Tables, w: nat, n: nat) { Clear(Fanout(f), ts, f.levels, ROOT, w, n) }

  predicate Reaches(f: Format, ts: Tables, home: Homes, v: nat, n: nat, t: nat) {
    n <= f.levels && t in home && Reach(Fanout(f), ts, f.levels, ROOT, v, n, t)
  }

  ghost predicate Sound(f: Format, ts: Tables, home: Homes) { Proper(f) && Inv(Fanout(f), f.levels, ts, home) }

  ghost predicate SameView(f: Format, was: Tables, now: Tables) {
    forall w: nat {:trigger View(f, now, w)} :: View(f, now, w) == View(f, was, w)
  }

  ghost predicate StillClear(f: Format, was: Tables, now: Tables, n: nat) {
    forall w: nat {:trigger NoLargePage(f, now, w, n)} :: NoLargePage(f, was, w, n) ==> NoLargePage(f, now, w, n)
  }

  /** Every address that was mapped still is, unchanged. */
  ghost predicate NothingLost(f: Format, was: Tables, now: Tables) {
    forall w: nat {:trigger View(f, now, w)} :: View(f, was, w) == Unmapped || View(f, now, w) == View(f, was, w)
  }

  // ----- walks

  lemma ReachedTable(f: Format, ts: Tables, home: Homes, v: nat, n: nat, t: nat)
    requires Sound(f, ts, home) && Reaches(f, ts, home, v, n, t)
    ensures For(Fanout(f), f.levels, home, t, n, v)
    ensures t in ts && |ts[t]| == Fanout(f)
    ensures var e := At(ts, t, Index(Fanout(f), v, n));
            e.Table? ==> n > 0 && Reaches(f, ts, home, v, n - 1, e.page)
    ensures View(f, ts, v) == Resolve(Fanout(f), ts, n, t, v)
  {
    var d := Fanout(f);
    ReachFor(d, f.levels, ts, home, f.levels, ROOT, v, n, t);
    NextTable(d, f.levels, ts, home, n, t, v);
    ReachResolve(d, ts, f.levels, ROOT, v, n, t);
    var e := At(ts, t, Index(d, v, n));
    if e.Table? { ReachStep(d, ts, f.levels, ROOT, v, n, t, e.page); }
  }

  lemma NoLeafAbove(f: Format, ts: Tables, home: Homes, v: nat, l: nat, t: nat, n: nat)
    requires Reaches(f, ts, home, v, l, t) && NoLargePage(f, ts, v, n) && n < l
    ensures !At(ts, t, Index(Fanout(f), v, l)).Leaf?
  {
    ClearAt(Fanout(f), ts, f.levels, ROOT, v, l, t, n);
  }

  /** All addresses that share the table of v at level n are unmapped. */
  ghost predicate TableUnmapped(f: Format, ts: Tables, v: nat, n: nat) {
    forall w: nat | PlaceOf(Fanout(f), f.levels, w, n) == PlaceOf(Fanout(f), f.levels, v, n) ::
      View(f, ts, w) == Unmapped
  }

  lemma SameUnmapped(f: Format, was: Tables, now: Tables, v: nat, n: nat)
    requires SameView(f, was, now) && TableUnmapped(f, now, v, n)
    ensures TableUnmapped(f, was, v, n)
  {
    forall w: nat | PlaceOf(Fanout(f), f.levels, w, n) == PlaceOf(Fanout(f), f.levels, v, n)
      ensures View(f, was, w) == Unmapped {
      assert View(f, now, w) == Unmapped;
    }
  }

  lemma EmptyAbove(f: Format, ts: Tables, home: Homes, v: nat, l: nat, t: nat, n: nat)
    requires Reaches(f, ts, home, v, l, t) && n < l && At(ts, t, Index(Fanout(f), v, l)) == Empty
    ensures TableUnmapped(f, ts, v, n)
  {
    var d := Fanout(f);
    forall w: nat | PlaceOf(d, f.levels, w, n) == PlaceOf(d, f.levels, v, n) ensures View(f, ts, w) == Unmapped {
      AbsentRange(d, f.levels, ts, v, l, t, n, w);
    }
  }

  /** Hooking in a new table for v changes no translation. */
  lemma AddedTable(f: Format, ts: Tables, home: Homes, v: nat, l: nat, t: nat, page: nat, n: nat)
    requires Sound(f, ts, home) && l > 0 && Reaches(f, ts, home, v, l, t) && page !in ts
    requires At(ts, t, Index(Fanout(f), v, l)) == Empty
    ensures t in ts && Index(Fanout(f), v, l) < |ts[t]|
    ensures var i := Index(Fanout(f), v, l);
            var now, next := Linked(Fanout(f), ts, t, i, page), home[page := Sub(home[t], i)];
            && Sound(f, now, next) && Reaches(f, now, next, v, l - 1, page)
            && SameView(f, ts, now) && StillClear(f, ts, now, n)
            && |now| == |ts| + 1
  {
    var d, i := Fanout(f), Index(Fanout(f), v, l);
    ReachedTable(f, ts, home, v, l, t);
    PlaceDepth(d, f.levels, v, l);
    var now := Linked(d, ts, t, i, page);
    LinkedInv(d, f.levels, ts, home, t, i, page);
    forall w: nat ensures View(f, now, w) == View(f, ts, w) {
      LinkedMeaning(d, f.levels, ts, home, v, l, t, page, w);
    }
    forall w: nat ensures NoLargePage(f, ts, w, n) ==> NoLargePage(f, now, w, n) {
      if NoLargePage(f, ts, w, n) { LinkedClear(d, f.levels, ts, home, t, i, page, f.levels, ROOT, w, n); }
    }
    LinkedMeaning(d, f.levels, ts, home, v, l, t, page, v);
    assert now.Keys == ts.Keys + {page};
    assert |now| == |now.Keys| && |ts| == |ts.Keys|;
  }

  // ----- writes

  /** Entry j of the group that is written for order r at level l. */
  function NewEntry(f: Format, l: nat, r: nat, p: nat, a: nat, j: nat): Entry {
    if a == 0 then Empty else GroupLeaf(Fanout(f), l, r, f.grouped, p, a, j)
  }

  ghost predicate WroteOne(f: Format, was: Tables, now: Tables, v: nat, l: nat, i: nat, e: Entry) {
    forall w: nat {:trigger View(f, now, w)} ::
      View(f, now, w) == if Hits(Fanout(f), f.levels, w, l, PlaceOf(Fanout(f), f.levels, v, l), i)
                         then ReadLeaf(Fanout(f), l, e, w) else View(f, was, w)
  }

  /** The first k entries of the group at v have been written. */
  ghost predicate Wrote(f: Format, was: Tables, now: Tables, v: nat, l: nat, r: nat, p: nat, a: nat, k: nat) {
    forall w: nat {:trigger View(f, now, w)} ::
      View(f, now, w) == if InGroup(Fanout(f), f.levels, v, w, l, k)
                         then ReadLeaf(Fanout(f), l,
                                       NewEntry(f, l, r, p, a, Index(Fanout(f), w, l) - Index(Fanout(f), v, l)), w)
                         else View(f, was, w)
  }

  lemma WroteNext(f: Format, was: Tables, mid: Tables, now: Tables, v: nat, l: nat, r: nat, p: nat, a: nat, k: nat)
    requires Wrote(f, was, mid, v, l, r, p, a, k)
    requires WroteOne(f, mid, now, v, l, Index(Fanout(f), v, l) + k, NewEntry(f, l, r, p, a, k))
    ensures Wrote(f, was, now, v, l, r, p, a, k + 1)
  {
    GroupGrows(Fanout(f), f.levels, v, l, k);
  }

  lemma LostNext(f: Format, was: Tables, mid: Tables, now: Tables)
    requires NothingLost(f, was, mid) && NothingLost(f, mid, now)
    ensures NothingLost(f, was, now)
  {
  }

  lemma ClearNext(f: Format, was: Tables, mid: Tables, now: Tables, n: nat)
    requires StillClear(f, was, mid, n) && StillClear(f, mid, now, n)
    ensures StillClear(f, was, now, n)
  {
  }

  /** Overwriting entry i of the table of v at level l. */
  lemma OverwroteEntry(f: Format, ts: Tables, home: Homes, v: nat, l: nat, t: nat, i: nat, e: Entry, drop: bool)
    requires Sound(f, ts, home) && Reaches(f, ts, home, v, l, t) && i < Fanout(f) && !e.Table?
    ensures t in ts && i < |ts[t]|
    ensures var now, next := Overwritten(ts, t, i, e, drop), Pruned(home, home[t], i);
            && Sound(f, now, next) && Reaches(f, now, next, v, l, t)
            && WroteOne(f, ts, now, v, l, i, e) && StillClear(f, ts, now, l)
            && (At(ts, t, i) == Empty || At(ts, t, i) == e ==> NothingLost(f, ts, now))
  {
    var d := Fanout(f);
    ReachedTable(f, ts, home, v, l, t);
    OverwriteInv(d, f.levels, ts, home, t, i, e, drop);
    var now := Overwritten(ts, t, i, e, drop);
    forall w: nat ensures View(f, now, w) == if Hits(d, f.levels, w, l, PlaceOf(d, f.levels, v, l), i)
                                             then ReadLeaf(d, l, e, w) else View(f, ts, w)
                  ensures NoLargePage(f, ts, w, l) ==> NoLargePage(f, now, w, l) {
      OverwriteMeaning(d, f.levels, ts, home, v, l, t, i, e, drop, w);
    }
    OverwriteMeaning(d, f.levels, ts, home, v, l, t, i, e, drop, v);
    if At(ts, t, i) == Empty || At(ts, t, i) == e {
      forall w: nat ensures View(f, ts, w) == Unmapped || View(f, now, w) == View(f, ts, w) {
        if Hits(d, f.levels, w, l, PlaceOf(d, f.levels, v, l), i) {
          ReachSamePlace(d, f.levels, ts, f.levels, ROOT, v, w, l, t);
          ReachResolve(d, ts, f.levels, ROOT, w, l, t);
        }
      }
    }
  }

  /** How many tables overwriting an entry frees. */
  lemma OverwroteCount(f: Format, ts: Tables, home: Homes, t: nat, i: nat, e: Entry, drop: bool)
    requires Sound(f, ts, home) && t in home && t in ts && i < |ts[t]|
    ensures |Overwritten(ts, t, i, e, drop)| == |ts| - if drop && ts[t][i].Table? then 1 else 0
    ensures ts[t][i].Table? ==> ts[t][i].page in ts && ts[t][i].page != t
  {
    var now, c := Overwritten(ts, t, i, e, drop), ts[t][i];
    assert TableOk(Fanout(f), f.levels, ts, home, t);
    assert EntryOk(f.levels, home, c, home[t], i);
    if c.Table? { assert TableOk(Fanout(f), f.levels, ts, home, c.page); }
    assert now.Keys == if drop && c.Table? then ts.Keys - {c.page} else ts.Keys;
    assert |now| == |now.Keys| && |ts| == |ts.Keys|;
  }

  // ----- tables left behind

  /** Entries [first, first + k) of table t can be overwritten without leaving a table behind. */
  predicate Safe(f: Format, ts: Tables, t: nat, first: nat, k: nat, drop: bool) {
    forall j | first <= j < first + k :: Harmless(Fanout(f), ts, t, j, drop)
  }

  /** From `was` to `now` the first k of the n entries from `first` on have been overwritten: tables were left behind
      unless these entries were safe, and the cases of the others are as they were. */
  ghost predicate Left(f: Format, was: Tables, now: Tables, t: nat, first: nat, k: nat, n: nat, drop: bool) {
    && Orphans(was) <= Orphans(now) && (Orphans(now) == Orphans(was) <==> Safe(f, was, t, first, k, drop))
    && forall j | first + k <= j < first + n :: SameCase(f, was, now, t, j, drop)
  }

  predicate SameCase(f: Format, was: Tables, now: Tables, t: nat, j: nat, drop: bool) {
    Harmless(Fanout(f), now, t, j, drop) <==> Harmless(Fanout(f), was, t, j, drop)
  }

  /** The same for a single entry. */
  ghost predicate LeftOne(f: Format, was: Tables, now: Tables, t: nat, i: nat, drop: bool) {
    && Orphans(was) <= Orphans(now) && (Orphans(now) == Orphans(was) <==> Harmless(Fanout(f), was, t, i, drop))
    && forall j | 0 <= j < Fanout(f) && j != i :: SameCase(f, was, now, t, j, drop)
  }

  lemma OverwroteLeft(f: Format, ts: Tables, home: Homes, t: nat, i: nat, e: Entry, drop: bool)
    requires Sound(f, ts, home) && t in home && t in ts && i < |ts[t]| && !e.Table?
    ensures LeftOne(f, ts, Overwritten(ts, t, i, e, drop), t, i, drop)
  {
    OverwriteOrphans(Fanout(f), f.levels, ts, home, t, i, e, drop);
    forall j | 0 <= j < Fanout(f) && j != i ensures SameCase(f, ts, Overwritten(ts, t, i, e, drop), t, j, drop) {
      OtherEntries(Fanout(f), f.levels, ts, home, t, i, e, drop, j);
    }
  }

  lemma LeftNext(f: Format, was: Tables, mid: Tables, now: Tables, t: nat, first: nat, k: nat, n: nat, drop: bool)
    requires k < n && first + n <= Fanout(f)
    requires Left(f, was, mid, t, first, k, n, drop) && LeftOne(f, mid, now, t, first + k, drop)
    ensures Left(f, was, now, t, first, k + 1, n, drop)
  {
    assert SameCase(f, was, mid, t, first + k, drop);
    assert Safe(f, was, t, first, k + 1, drop) <==>
           Safe(f, was, t, first, k, drop) && Harmless(Fanout(f), was, t, first + k, drop);
    forall j | first + k + 1 <= j < first + n ensures SameCase(f, was, now, t, j, drop) {
      assert SameCase(f, was, mid, t, j, drop) && SameCase(f, mid, now, t, j, drop);
    }
  }

  // ----- the loop over a group of entries

  /** The first k entries of the group of v in table t are written. */
  ghost predicate GroupDone(f: Format, was: Tables, now: Tables, v: nat, l: nat, r: nat, p: nat, a: nat, t: nat,
                            k: nat, drop: bool, flush: bool) {
    && Wrote(f, was, now, v, l, r, p, a, k) && StillClear(f, was, now, l)
    && Left(f, was, now, t, Index(Fanout(f), v, l), k, Pow2(r), drop)
    && (l == 0 ==> !flush) && (l > 0 && !flush ==> NothingLost(f, was, now))
  }

  lemma GroupStart(f: Format, ts: Tables, v: nat, l: nat, r: nat, p: nat, a: nat, t: nat, drop: bool)
    ensures GroupDone(f, ts, ts, v, l, r, p, a, t, 0, drop, false)
  {
  }

  lemma GroupNext(f: Format, was: Tables, mid: Tables, now: Tables, v: nat, l: nat, r: nat, p: nat, a: nat, t: nat,
                  k: nat, drop: bool, flush: bool, more: bool)
    requires k < Pow2(r) && Index(Fanout(f), v, l) + Pow2(r) <= Fanout(f)
    requires GroupDone(f, was, mid, v, l, r, p, a, t, k, drop, flush)
    requires WroteOne(f, mid, now, v, l, Index(Fanout(f), v, l) + k, NewEntry(f, l, r, p, a, k))
    requires StillClear(f, mid, now, l) && LeftOne(f, mid, now, t, Index(Fanout(f), v, l) + k, drop)
    requires (l == 0 ==> !more) && (!more && l > 0 ==> NothingLost(f, mid, now))
    ensures GroupDone(f, was, now, v, l, r, p, a, t, k + 1, drop, flush || more)
  {
    WroteNext(f, was, mid, now, v, l, r, p, a, k);
    ClearNext(f, was, mid, now, l);
    LeftNext(f, was, mid, now, t, Index(Fanout(f), v, l), k, Pow2(r), drop);
    if l > 0 && !flush && !more { LostNext(f, was, mid, now); }
  }

  predicate Finds(f: Format, ts: Tables, v: nat, l: nat, t: nat) { Reach(Fanout(f), ts, f.levels, ROOT, v, l, t) }

  /** There is a table for v at level l, and overwriting the n entries from that of v on leaves tables behind. */
  ghost predicate Leaks(f: Format, ts: Tables, v: nat, l: nat, n: nat, drop: bool) {
    exists t: nat :: Finds(f, ts, v, l, t) && !Safe(f, ts, t, Index(Fanout(f), v, l), n, drop)
  }

  /** There is no table for v at level l. */
  ghost predicate NoTable(f: Format, ts: Tables, v: nat, l: nat) { forall t: nat :: !Finds(f, ts, v, l, t) }

  lemma NoTableBehind(f: Format, ts: Tables, home: Homes, v: nat, l: nat, t: nat, n: nat)
    requires Reaches(f, ts, home, v, l, t) && n < l && At(ts, t, Index(Fanout(f), v, l)) == Empty
    ensures NoTable(f, ts, v, n)
  {
    forall w: nat ensures !Finds(f, ts, v, n, w) {
      ReachStops(Fanout(f), ts, f.levels, ROOT, v, l, t, n, w);
    }
  }

  ghost predicate Blank(ts: Tables, t: nat) { forall k: nat :: At(ts, t, k) == Empty }

  /** A walk has found the table of v, or made one where there was none. */
  ghost predicate FoundOrNew(f: Format, was: Tables, now: Tables, v: nat, l: nat, t: nat) {
    now == was || (Blank(now, t) && NoTable(f, was, v, l))
  }

  /** Writing the group after a walk leaves tables behind exactly when the tables before the walk say so. */
  lemma LeaksBefore(f: Format, was: Tables, mid: Tables, now: Tables, v: nat, l: nat, t: nat, n: nat, drop: bool)
    requires Finds(f, mid, v, l, t) && FoundOrNew(f, was, mid, v, l, t) && Orphans(mid) == Orphans(was)
    requires Left(f, mid, now, t, Index(Fanout(f), v, l), n, n, drop)
    ensures Orphans(was) <= Orphans(now) && (Orphans(now) == Orphans(was) <==> !Leaks(f, was, v, l, n, drop))
  {
    var i := Index(Fanout(f), v, l);
    if mid == was {
      forall w: nat | Finds(f, was, v, l, w) ensures w == t {
        ReachUnique(Fanout(f), was, f.levels, ROOT, v, l, t, w);
      }
    } else {
      assert Safe(f, mid, t, i, n, drop);
    }
  }

  /** Mapping a large page of the second level over a page that is mapped through three levels leaves a table behind. */
  lemma LeakingWindow()
    ensures var f := Format(3, 1, false);
            && Sound(f, ThreeLevels(), ThreeHomes()) && AlignedWindow(f, 0, 2, 0, 2, 4)
            && NoLargePage(f, ThreeLevels(), 0, 2) && Leaks(f, ThreeLevels(), 0, 2, 1, true)
  {
    ThreeLevelsOk();
    var f, ts := Format(3, 1, false), ThreeLevels();
    assert Fanout(f) == 2;
    FirstIndex(2, 3);
    FirstIndex(2, 2);
    assert Reach(2, ts, 2, 1, 0, 2, 1) && Finds(f, ts, 0, 2, 1);
    assert At(ts, 1, 0) == Table(2) && At(ts, 2, 0) == Table(3);
    assert !Harmless(2, ts, 1, 0, true);
    assert Space(f) == 8 && Aligned(0, 2) && Aligned(4, 2);
  }

  lemma FirstIndex(d: Fan, l: nat)
    ensures Index(d, 0, l) == 0
  {
    DivUnique(0, Width(d, l), 0);
  }

  lemma AddedOrphans(f: Format, ts: Tables, home: Homes, v: nat, l: nat, t: nat, page: nat)
    requires Sound(f, ts, home) && l > 0 && Reaches(f, ts, home, v, l, t) && page !in ts
    requires At(ts, t, Index(Fanout(f), v, l)) == Empty
    ensures t in ts && Index(Fanout(f), v, l) < |ts[t]|
    ensures var now := Linked(Fanout(f), ts, t, Index(Fanout(f), v, l), page);
            Orphans(now) == Orphans(ts) && Blank(now, page)
  {
    ReachedTable(f, ts, home, v, l, t);
    PlaceDepth(Fanout(f), f.levels, v, l);
    LinkedOrphans(Fanout(f), f.levels, ts, home, t, Index(Fanout(f), v, l), page);
  }

  // ----- windows

  /** The size that entries give to the pages of a window of order o. */
  function PageSize(f: Format, o: nat): nat
    requires f.bits > 0
  {
    if f.grouped then Pow2(o) else Pow2(o - o % f.bits)
  }

  /** The flat map with the window of 2^o pages at v mapped to p and what follows, or unmapped when a is 0. */
  function Remapped(f: Format, v: nat, o: nat, p: nat, a: nat, w: nat, m: Mapping): Mapping
    requires f.bits > 0
  {
    if !(v <= w < v + Pow2(o)) then m else if a == 0 then Unmapped else Mapped(p + (w - v), a, PageSize(f, o))
  }

  ghost predicate Updated(f: Format, was: Tables, now: Tables, v: nat, o: nat, p: nat, a: nat)
    requires f.bits > 0
  {
    forall w: nat {:trigger View(f, now, w)} | w < Space(f) ::
      View(f, now, w) == Remapped(f, v, o, p, a, w, View(f, was, w))
  }

  ghost predicate UnmappedWindow(f: Format, ts: Tables, v: nat, o: nat) {
    forall w: nat {:trigger View(f, ts, w)} | v <= w < v + Pow2(o) :: View(f, ts, w) == Unmapped
  }

  /** The window of order o = l * bits + r at v and the frames at p are aligned, and the window lies in the space. */
  predicate AlignedWindow(f: Format, v: nat, l: nat, r: nat, o: nat, p: nat) {
    && r < f.bits && l < f.levels && o == l * f.bits + r
    && v + Pow2(o) <= Space(f) && Aligned(v, o) && Aligned(p, o)
  }

  lemma SpaceBound(f: Format)
    ensures Space(f) <= Width(Fanout(f), f.levels + 1)
  {
    MulLe(1, Fanout(f), Width(Fanout(f), f.levels));
  }

  /** The addresses of the group at v are those of the window. */
  lemma Window(f: Format, v: nat, l: nat, r: nat, o: nat, p: nat, w: nat)
    requires AlignedWindow(f, v, l, r, o, p) && w < Space(f)
    ensures Index(Fanout(f), v, l) + Pow2(r) <= Fanout(f)
    ensures InGroup(Fanout(f), f.levels, v, w, l, Pow2(r)) <==> v <= w < v + Pow2(o)
  {
    OrderSplit(f.bits, l, r, o);
    SpaceBound(f);
    GroupRange(f.bits, f.levels, v, w, l, r);
  }

  lemma OrderRemainder(b: nat, l: nat, r: nat, o: nat)
    requires r < b && o == l * b + r
    ensures o % b == r
  {
    DivUnique(o, b, l);
    DivBounds(o, b);
  }

  lemma NewMeaning(f: Format, v: nat, l: nat, r: nat, o: nat, p: nat, a: nat, w: nat)
    requires AlignedWindow(f, v, l, r, o, p) && v <= w < v + Pow2(o) && InGroup(Fanout(f), f.levels, v, w, l, Pow2(r))
    ensures ReadLeaf(Fanout(f), l, NewEntry(f, l, r, p, a, Index(Fanout(f), w, l) - Index(Fanout(f), v, l)), w)
            == Remapped(f, v, o, p, a, w, Unmapped)
  {
    SpaceBound(f);
    OrderRemainder(f.bits, l, r, o);
    if a != 0 { WindowLeaf(f.bits, f.levels, l, r, o, f.grouped, p, a, v, w); }
  }

  /** Writing the whole group is updating the window. */
  lemma GroupIsWindow(f: Format, was: Tables, mid: Tables, now: Tables, v: nat, l: nat, r: nat, o: nat, p: nat, a: nat)
    requires AlignedWindow(f, v, l, r, o, p) && SameView(f, was, mid) && Wrote(f, mid, now, v, l, r, p, a, Pow2(r))
    ensures Updated(f, was, now, v, o, p, a)
  {
    forall w: nat | w < Space(f) ensures View(f, now, w) == Remapped(f, v, o, p, a, w, View(f, was, w)) {
      Window(f, v, l, r, o, p, w);
      assert View(f, mid, w) == View(f, was, w);
      if v <= w < v + Pow2(o) { NewMeaning(f, v, l, r, o, p, a, w); }
    }
  }

  lemma NoTableNoWindow(f: Format, ts: Tables, v: nat, l: nat, r: nat, o: nat, p: nat)
    requires AlignedWindow(f, v, l, r, o, p) && TableUnmapped(f, ts, v, l)
    ensures UnmappedWindow(f, ts, v, o)
  {
    forall w: nat | v <= w < v + Pow2(o) ensures View(f, ts, w) == Unmapped {
      Window(f, v, l, r, o, p, w);
    }
  }

  /** An update of a window leaves tables behind when any of its pages is mapped two or more levels below. */
  lemma SmallPageLeaks(f: Format, ts: Tables, home: Homes, v: nat, l: nat, r: nat, o: nat, p: nat, w: nat, drop: bool)
    requires Sound(f, ts, home) && AlignedWindow(f, v, l, r, o, p) && l >= 2 && v <= w < v + Pow2(o)
    requires View(f, ts, w) != Unmapped && NoLargePage(f, ts, w, l - 2)
    ensures Leaks(f, ts, v, l, Pow2(r), drop)
  {
    var d := Fanout(f);
    ClearHigher(d, ts, f.levels, ROOT, w, l - 2, l);
    var t := FindTable(d, ts, f.levels, ROOT, w, l);
    Window(f, v, l, r, o, p, w);
    ReachSamePlace(d, f.levels, ts, f.levels, ROOT, w, v, l, t);
    ClearAt(d, ts, f.levels, ROOT, w, l, t, l - 2);
    var x := At(ts, t, Index(d, w, l)).page;
    ReachStep(d, ts, f.levels, ROOT, w, l, t, x);
    ClearAt(d, ts, f.levels, ROOT, w, l - 1, x, l - 2);
    assert At(ts, x, Index(d, w, l - 1)).Table?;
    assert !Harmless(d, ts, t, Index(d, w, l), drop);
    assert Finds(f, ts, v, l, t) && !Safe(f, ts, t, Index(d, v, l), Pow2(r), drop);
  }

  // ----- the sizes that lookups return

  /** If w is mapped, all addresses of its page are, to consecutive frames with the same attributes and size. */
  ghost predicate PageWhole(f: Format, ts: Tables, w: nat) {
    var m := View(f, ts, w);
    m.Mapped? ==> m.size > 0 && forall x: nat | x < Space(f) && x / m.size == w / m.size :: SamePage(f, ts, w, x)
  }

  predicate SamePage(f: Format, ts: Tables, w: nat, x: nat) {
    var m, n := View(f, ts, w), View(f, ts, x);
    m.Mapped? && n.Mapped? && n.frame - x == m.frame - w && n.attr == m.attr && n.size == m.size
  }

  ghost predicate SizesRight(f: Format, ts: Tables) { forall w: nat | w < Space(f) :: PageWhole(f, ts, w) }

  /** Address w outside the window is on a page with address x inside it. */
  predicate CutBy(f: Format, ts: Tables, v: nat, o: nat, w: nat, x: nat) {
    && w < Space(f) && !InRange(w, v, o) && InRange(x, v, o)
    && var m := View(f, ts, w); m.Mapped? && m.size > 0 && x / m.size == w / m.size
  }

  /** The window cuts no page in two. */
  ghost predicate CutsNoPage(f: Format, ts: Tables, v: nat, o: nat) {
    forall w: nat, x: nat :: !CutBy(f, ts, v, o, w, x)
  }

  /** The pages of a window lie inside it. */
  lemma PagesInWindow(f: Format, v: nat, o: nat, w: nat, x: nat)
    requires f.bits > 0 && Aligned(v, o) && InRange(w, v, o) && x / PageSize(f, o) == w / PageSize(f, o)
    ensures InRange(x, v, o)
  {
    DivBounds(o, f.bits);
    InRangeDiv(w, v, o);
    InRangeDiv(x, v, o);
    DivCoarser(x, w, if f.grouped then o else o - o % f.bits, o);
  }

  /** The sizes stay right exactly when the window that is updated cuts no page. */
  lemma SizesKept(f: Format, was: Tables, now: Tables, v: nat, l: nat, r: nat, o: nat, p: nat, a: nat)
    requires f.bits > 0 && AlignedWindow(f, v, l, r, o, p) && Updated(f, was, now, v, o, p, a) && SizesRight(f, was)
    ensures SizesRight(f, now) <==> CutsNoPage(f, was, v, o)
  {
    if CutsNoPage(f, was, v, o) {
      forall w: nat | w < Space(f) ensures PageWhole(f, now, w) { PageStaysWhole(f, was, now, v, o, p, a, w); }
    } else {
      var w: nat, x: nat :| CutBy(f, was, v, o, w, x);
      PageCut(f, was, now, v, o, p, a, w, x);
    }
  }

  lemma PageStaysWhole(f: Format, was: Tables, now: Tables, v: nat, o: nat, p: nat, a: nat, w: nat)
    requires f.bits > 0 && Aligned(v, o) && Updated(f, was, now, v, o, p, a) && SizesRight(f, was)
    requires CutsNoPage(f, was, v, o) && w < Space(f)
    ensures PageWhole(f, now, w)
  {
    var m := View(f, now, w);
    if m.Mapped? {
      if !InRange(w, v, o) { assert PageWhole(f, was, w); }
      forall x: nat | x < Space(f) && x / m.size == w / m.size ensures SamePage(f, now, w, x) {
        if InRange(w, v, o) {
          PagesInWindow(f, v, o, w, x);
        } else {
          assert !CutBy(f, was, v, o, w, x) && SamePage(f, was, w, x);
        }
        assert View(f, now, x) == Remapped(f, v, o, p, a, x, View(f, was, x));
      }
    }
  }

  lemma PageCut(f: Format, was: Tables, now: Tables, v: nat, o: nat, p: nat, a: nat, w: nat, x: nat)
    requires f.bits > 0 && Aligned(v, o) && v + Pow2(o) <= Space(f) && Updated(f, was, now, v, o, p, a)
    requires CutBy(f, was, v, o, w, x)
    ensures !PageWhole(f, now, w)
  {
    assert View(f, now, w) == View(f, was, w);
    assert View(f, now, x) == Remapped(f, v, o, p, a, x, View(f, was, x));
    if SamePage(f, now, w, x) { PagesInWindow(f, v, o, x, w); }
  }

  // ----- sequences of windows

  /** The first n pages of the window at b have been updated in pages of order k; those for which no table existed may
      have been left unmapped when `lenient`. */
  ghost predicate UpdatedTo(f: Format, was: Tables, now: Tables, b: nat, n: nat, k: nat, p: nat, a: nat, lenient: bool)
    requires f.bits > 0
  {
    forall w: nat {:trigger View(f, now, w)} | w < Space(f) ::
      if b <= w < b + n
      then View(f, now, w) == (if a == 0 then Unmapped else Mapped(p + (w - b), a, PageSize(f, k)))
           || (lenient && View(f, was, w) == Unmapped && View(f, now, w) == Unmapped)
      else View(f, now, w) == View(f, was, w)
  }

  /** One more chunk was updated, or had no table and was left alone. */
  lemma UpdatedNext(f: Format, was: Tables, mid: Tables, now: Tables, b: nat, n: nat, k: nat, p: nat, a: nat,
                    lenient: bool)
    requires f.bits > 0 && UpdatedTo(f, was, mid, b, n, k, p, a, lenient)
    requires || Updated(f, mid, now, b + n, k, p + n, a)
             || (lenient && SameView(f, mid, now) && UnmappedWindow(f, mid, b + n, k))
    ensures UpdatedTo(f, was, now, b, n + Pow2(k), k, p, a, lenient)
  {
    forall w: nat | w < Space(f)
      ensures View(f, now, w) == View(f, mid, w)
              || View(f, now, w) == Remapped(f, b + n, k, p + n, a, w, View(f, mid, w)) {
      assert View(f, mid, w) == View(f, mid, w);
    }
  }

  /** Chunk i of a window of order o cut into windows of order k. */
  lemma Chunk(b: nat, o: nat, p: nat, k: nat, i: nat)
    requires k <= o && Aligned(b, o) && Aligned(p, o) && i < Pow2(o - k)
    ensures i * Pow2(k) >= 0 && i * Pow2(k) + Pow2(k) <= Pow2(o) && (i + 1) * Pow2(k) == i * Pow2(k) + Pow2(k)
    ensures Aligned(b + i * Pow2(k), k) && Aligned(p + i * Pow2(k), k)
  {
    NatProduct(i, Pow2(k));
    AlignedFiner(b, k, o);
    AlignedFiner(p, k, o);
    AlignedMultiple(i, k);
    AlignedAdd(b, i * Pow2(k), k);
    AlignedAdd(p, i * Pow2(k), k);
    Pow2Add(o - k, k);
    MulLe(i + 1, Pow2(o - k), Pow2(k));
    Distribute(i, 1, Pow2(k));
  }

  lemma ChunksCover(o: nat, k: nat)
    requires k <= o
    ensures Pow2(o - k) * Pow2(k) == Pow2(o)
  {
    Pow2Add(o - k, k);
  }

  lemma CapFits(f: Format, k: nat, cap: nat)
    requires f.bits > 0 && k <= cap && cap / f.bits < f.levels
    ensures k / f.bits < f.levels && k == k / f.bits * f.bits + k % f.bits
  {
    DivBounds(k, f.bits);
    DivBounds(cap, f.bits);
    if k / f.bits > cap / f.bits { MulOrder(k / f.bits, cap / f.bits, f.bits); }
  }
}
