/** Regions of a space (include/space.hpp): any range of pages is kept as aligned power-of-two nodes of the space's
    tree, and single pages can be punched out. */
module Regions {
  import opened Bits
  import opened Options
  import opened Machine
  import opened Avl
  import AvlRemoval
  import AvlSearch
  import Ranges

  /** Attributes and type of a node. */
  datatype Kind = Kind(attr: nat, typ: nat)

  // ----- max_order

  /** `max_order` (include/bits.hpp) */
  function MaxOrder(base: nat, size: nat): nat
    requires size > 0
  {
    if base > 0 && Lsb(base) < Msb(size) then Lsb(base) else Msb(size)
  }

  /** It is the largest order of an aligned block at `base` that fits into `size`. */
  lemma MaxOrderIsLargest(base: nat, size: nat, k: nat)
    requires size > 0
    ensures Aligned(base, MaxOrder(base, size)) && Pow2(MaxOrder(base, size)) <= size
    ensures Aligned(base, k) && Pow2(k) <= size ==> k <= MaxOrder(base, size)
  {
    var o := MaxOrder(base, size);
    MsbBounds(size);
    Pow2Mono(o, Msb(size));
    if base == 0 {
      ZeroAligned(o);
    } else {
      LsbAligned(base);
      AlignedFiner(base, o, Lsb(base));
    }
    if Aligned(base, k) && Pow2(k) <= size {
      if k > Msb(size) { Pow2Mono(Msb(size) + 1, k); }
      if base > 0 { LsbMaximal(base, k); }
    }
  }

  lemma ZeroAligned(o: nat)
    ensures Aligned(0, o)
  {
    AlignedMultiple(0, o);
  }

  // ----- what a space covers

  function CoverageIn(s: seq<Ranges.Entry>, kinds: map<nat, Kind>, p: nat): Option<Kind> {
    var f := Ranges.LookupIn(s, p, false);
    if f.Some? && f.e.id in kinds then Some(kinds[f.e.id]) else None
  }

  predicate Known(s: seq<Ranges.Entry>, kinds: map<nat, Kind>, next: nat) {
    forall e | e in s :: e.id in kinds && e.id < next
  }

  ghost predicate FreeRegion(s: seq<Ranges.Entry>, lo: nat, hi: nat) {
    forall p: nat {:trigger Ranges.LookupIn(s, p, false)} | lo <= p < hi :: Ranges.LookupIn(s, p, false) == Ranges.None
  }

  lemma LookupUnique(s: seq<Ranges.Entry>, e: Ranges.Entry, p: nat)
    requires Ranges.Ordered(s) && e in s && Ranges.Holds(e, p)
    ensures Ranges.LookupIn(s, p, false) == Ranges.Some(e)
  {
    Ranges.LookupMeaning(s, p, false);
    var f := Ranges.LookupIn(s, p, false);
    var i :| 0 <= i < |s| && s[i] == e;
    var j :| 0 <= j < |s| && s[j] == f.e;
    assert s[i].base <= p < Ranges.Top(s[i]) && s[j].base <= p < Ranges.Top(s[j]);
    assert i == j;
  }

  lemma LookupRemoved(s: seq<Ranges.Entry>, e: Ranges.Entry, p: nat)
    requires Ranges.Ordered(s) && e in s
    ensures Ranges.LookupIn(Ranges.RemoveFrom(s, e), p, false)
            == if Ranges.Holds(e, p) then Ranges.None else Ranges.LookupIn(s, p, false)
  {
    var t := Ranges.RemoveFrom(s, e);
    Ranges.RemoveKeepsOrder(s, e);
    Ranges.RemoveMembers(s, e);
    Ranges.LookupMeaning(s, p, false);
    Ranges.LookupMeaning(t, p, false);
    var f, g := Ranges.LookupIn(s, p, false), Ranges.LookupIn(t, p, false);
    if Ranges.Holds(e, p) { LookupUnique(s, e, p); }
    if g.Some? { LookupUnique(s, g.e, p); }
    if f.Some? && f.e != e { LookupUnique(t, f.e, p); }
  }

  /** A range none of whose pages is held overlaps nothing. */
  lemma FreeByPages(s: seq<Ranges.Entry>, e: Ranges.Entry)
    requires Ranges.Ordered(s) && FreeRegion(s, e.base, Ranges.Top(e))
    ensures Ranges.Free(s, e)
  {
    forall i | 0 <= i < |s| ensures !Ranges.Overlaps(s[i], e) {
      var p: nat := if s[i].base > e.base then s[i].base else e.base;
      if Ranges.Holds(s[i], p) { LookupUnique(s, s[i], p); }
    }
  }

  /** What Space::addreg has done after the pages in [lo, hi): it has covered them if none was, and never changed the
      coverage of any other page. */
  ghost predicate Added(s: seq<Ranges.Entry>, k: map<nat, Kind>, t: seq<Ranges.Entry>, l: map<nat, Kind>,
                        lo: nat, hi: nat, kind: Kind) {
    forall p: nat {:trigger CoverageIn(t, l, p)} ::
      || CoverageIn(t, l, p) == CoverageIn(s, k, p)
      || (lo <= p < hi && CoverageIn(s, k, p) == None && CoverageIn(t, l, p) == Some(kind))
  }

  ghost predicate AllAdded(t: seq<Ranges.Entry>, l: map<nat, Kind>, lo: nat, hi: nat, kind: Kind) {
    forall p: nat {:trigger CoverageIn(t, l, p)} | lo <= p < hi :: CoverageIn(t, l, p) == Some(kind)
  }

  lemma AddOne(s: seq<Ranges.Entry>, k: map<nat, Kind>, e: Ranges.Entry, kind: Kind)
    requires Ranges.Ordered(s) && Ranges.Wf(e) && Known(s, k, e.id)
    ensures Added(s, k, s, k[e.id := kind], e.base, e.base, kind)
    ensures Ranges.Free(s, e) ==>
              && Added(s, k, Ranges.InsertAt(s, e), k[e.id := kind], e.base, Ranges.Top(e), kind)
              && AllAdded(Ranges.InsertAt(s, e), k[e.id := kind], e.base, Ranges.Top(e), kind)
              && Known(Ranges.InsertAt(s, e), k[e.id := kind], e.id + 1)
  {
    forall p: nat ensures CoverageIn(s, k[e.id := kind], p) == CoverageIn(s, k, p) {
      Ranges.LookupMeaning(s, p, false);
    }
    if Ranges.Free(s, e) {
      Ranges.InsertMembers(s, e);
      forall p: nat ensures CoverageIn(Ranges.InsertAt(s, e), k[e.id := kind], p)
                            == if Ranges.Holds(e, p) then Some(kind) else CoverageIn(s, k, p) {
        Ranges.LookupInserted(s, e, p);
        Ranges.LookupMeaning(s, p, false);
      }
      forall p: nat | Ranges.Holds(e, p) ensures CoverageIn(s, k, p) == None {
        FreeHoldsNothing(s, e, p);
      }
    }
  }

  lemma FreeHoldsNothing(s: seq<Ranges.Entry>, e: Ranges.Entry, p: nat)
    requires Ranges.Ordered(s) && Ranges.Free(s, e) && Ranges.Holds(e, p)
    ensures Ranges.LookupIn(s, p, false) == Ranges.None
  {
    Ranges.LookupMeaning(s, p, false);
    assert forall x | x in s :: !Ranges.Overlaps(x, e);
  }

  /** Coverage below `hi` as added so far leaves the pages above it free. */
  lemma StillFree(s: seq<Ranges.Entry>, k: map<nat, Kind>, t: seq<Ranges.Entry>, l: map<nat, Kind>, lo: nat, mid: nat,
                  hi: nat, kind: Kind, next: nat)
    requires Added(s, k, t, l, lo, mid, kind) && FreeRegion(s, mid, hi) && Ranges.Ordered(t) && Known(t, l, next)
    ensures FreeRegion(t, mid, hi)
  {
    forall p: nat | mid <= p < hi ensures Ranges.LookupIn(t, p, false) == Ranges.None {
      assert CoverageIn(t, l, p) == CoverageIn(s, k, p);
      assert Ranges.LookupIn(s, p, false) == Ranges.None;
      Ranges.LookupMeaning(t, p, false);
    }
  }

  lemma AddedWider(s: seq<Ranges.Entry>, k: map<nat, Kind>, t: seq<Ranges.Entry>, l: map<nat, Kind>, lo: nat, mid: nat,
                   hi: nat, kind: Kind)
    requires Added(s, k, t, l, lo, mid, kind) && mid <= hi
    ensures Added(s, k, t, l, lo, hi, kind)
  {
  }

  lemma AddedNext(s: seq<Ranges.Entry>, k: map<nat, Kind>, t: seq<Ranges.Entry>, l: map<nat, Kind>,
                  u: seq<Ranges.Entry>, m: map<nat, Kind>, lo: nat, mid: nat, top: nat, hi: nat, kind: Kind)
    requires Added(s, k, t, l, lo, mid, kind) && Added(t, l, u, m, mid, top, kind) && lo <= mid <= top <= hi
    ensures Added(s, k, u, m, lo, hi, kind)
    ensures AllAdded(t, l, lo, mid, kind) && AllAdded(u, m, mid, hi, kind) ==> AllAdded(u, m, lo, hi, kind)
  {
    forall p: nat ensures || CoverageIn(u, m, p) == CoverageIn(s, k, p)
                          || (lo <= p < hi && CoverageIn(s, k, p) == None && CoverageIn(u, m, p) == Some(kind)) {
      assert CoverageIn(t, l, p) == CoverageIn(t, l, p);
    }
    if AllAdded(t, l, lo, mid, kind) && AllAdded(u, m, mid, hi, kind) {
      forall p: nat | lo <= p < hi ensures CoverageIn(u, m, p) == Some(kind) {
        assert p < mid ==> CoverageIn(t, l, p) == Some(kind);
      }
    }
  }

  /** Taking a node out of the tree. */
  lemma PunchStart(s: seq<Ranges.Entry>, k: map<nat, Kind>, e: Ranges.Entry, next: nat)
    requires Ranges.Ordered(s) && Known(s, k, next) && e in s
    ensures var t := Ranges.RemoveFrom(s, e);
            && Known(t, k, next) && FreeRegion(t, e.base, Ranges.Top(e))
            && (forall p: nat {:trigger CoverageIn(t, k, p)} ::
                  if Ranges.Holds(e, p) then CoverageIn(t, k, p) == None && CoverageIn(s, k, p) == Some(k[e.id])
                  else CoverageIn(t, k, p) == CoverageIn(s, k, p))
  {
    var t := Ranges.RemoveFrom(s, e);
    Ranges.RemoveMembers(s, e);
    forall p: nat ensures Ranges.Holds(e, p) ==> Ranges.LookupIn(t, p, false) == Ranges.None {
      LookupRemoved(s, e, p);
    }
    forall p: nat ensures if Ranges.Holds(e, p) then CoverageIn(t, k, p) == None && CoverageIn(s, k, p) == Some(k[e.id])
                          else CoverageIn(t, k, p) == CoverageIn(s, k, p) {
      PunchPage(s, k, e, next, p);
    }
  }

  lemma PunchPage(s: seq<Ranges.Entry>, k: map<nat, Kind>, e: Ranges.Entry, next: nat, p: nat)
    requires Ranges.Ordered(s) && Known(s, k, next) && e in s
    ensures var t := Ranges.RemoveFrom(s, e);
            if Ranges.Holds(e, p) then CoverageIn(t, k, p) == None && CoverageIn(s, k, p) == Some(k[e.id])
            else CoverageIn(t, k, p) == CoverageIn(s, k, p)
  {
    LookupRemoved(s, e, p);
    if Ranges.Holds(e, p) { LookupUnique(s, e, p); }
  }

  /** Putting back what lies below and above the page. */
  lemma PunchEnd(s: seq<Ranges.Entry>, k: map<nat, Kind>, e: Ranges.Entry, page: nat, t: seq<Ranges.Entry>,
                 h: map<nat, Kind>, u: seq<Ranges.Entry>, l: map<nat, Kind>, v: seq<Ranges.Entry>, m: map<nat, Kind>,
                 kind: Kind)
    requires forall p: nat {:trigger CoverageIn(t, h, p)} ::
               if Ranges.Holds(e, p) then CoverageIn(t, h, p) == None && CoverageIn(s, k, p) == Some(kind)
               else CoverageIn(t, h, p) == CoverageIn(s, k, p)
    requires Ranges.Holds(e, page)
    requires Added(t, h, u, l, e.base, page, kind) && AllAdded(u, l, e.base, page, kind)
    requires Added(u, l, v, m, page + 1, Ranges.Top(e), kind) && AllAdded(v, m, page + 1, Ranges.Top(e), kind)
    ensures forall p: nat {:trigger CoverageIn(v, m, p)} ::
              CoverageIn(v, m, p) == if p == page then None else CoverageIn(s, k, p)
  {
    forall p: nat ensures CoverageIn(v, m, p) == if p == page then None else CoverageIn(s, k, p) {
      assert CoverageIn(u, l, p) == CoverageIn(u, l, p) && CoverageIn(t, h, p) == CoverageIn(t, h, p);
    }
  }

  class Space {
    const tree: AvlTree
    var kinds: map<nat, Kind>
    var next: nat

    ghost predicate Valid()
      reads this, tree, tree.repr
    {
      tree.Valid() && Known(tree.Contents(), kinds, next)
    }

    ghost function Coverage(p: nat): Option<Kind>
      reads this, tree
    {
      CoverageIn(tree.Contents(), kinds, p)
    }

    constructor ()
      ensures Valid() && fresh(tree) && tree.repr == {} && forall p: nat :: Coverage(p) == None
    {
      tree := new AvlTree();
      kinds, next := map[], 0;
    }

    /** One turn of the loop of Space::addreg. */
    method AddNode(addr: nat, o: nat, kind: Kind) returns (ghost ok: bool)
      requires Valid() && Aligned(addr, o)
      modifies this, tree, tree.repr
      ensures Valid() && fresh(tree.repr - old(tree.repr))
      ensures Added(old(tree.Contents()), old(kinds), tree.Contents(), kinds, addr,
                    if ok then addr + Pow2(o) else addr, kind)
      ensures ok <==> Ranges.Free(old(tree.Contents()), Ranges.Entry(addr, o, old(next)))
      ensures ok ==> AllAdded(tree.Contents(), kinds, addr, addr + Pow2(o), kind)
    {
      var e := Ranges.Entry(addr, o, next);
      AddOne(tree.Contents(), kinds, e, kind);
      var node := new Node(e);
      var done := tree.Insert(node);
      ok := done;
      kinds := kinds[next := kind];
      next := next + 1;
    }

    /** Space::addreg. The result of an insertion is not looked at, so that pages which are covered already keep their
        attributes; a free region becomes covered as a whole. */
    method AddRegion(addr: nat, size: nat, kind: Kind)
      requires Valid()
      modifies this, tree, tree.repr
      ensures Valid() && fresh(tree.repr - old(tree.repr))
      ensures Added(old(tree.Contents()), old(kinds), tree.Contents(), kinds, addr, addr + size, kind)
      ensures FreeRegion(old(tree.Contents()), addr, addr + size) ==>
                AllAdded(tree.Contents(), kinds, addr, addr + size, kind)
    {
      ghost var free := FreeRegion(tree.Contents(), addr, addr + size);
      ghost var s, k := tree.Contents(), kinds;
      var a: nat, n: nat := addr, size;
      while n > 0
        invariant addr <= a && a + n == addr + size && Valid() && fresh(tree.repr - old(tree.repr))
        invariant Added(s, k, tree.Contents(), kinds, addr, a, kind)
        invariant free ==> AllAdded(tree.Contents(), kinds, addr, a, kind)
      {
        MaxOrderIsLargest(a, n, 0);
        var o := MaxOrder(a, n);
        ghost var t, l := tree.Contents(), kinds;
        if free { ChunkFree(s, k, t, l, addr, a, n, addr + size, kind, Ranges.Entry(a, o, next)); }
        ghost var ok := AddNode(a, o, kind);
        AddedNext(s, k, t, l, tree.Contents(), kinds, addr, a, if ok then a + Pow2(o) else a, a + Pow2(o), kind);
        a, n := a + Pow2(o), n - Pow2(o);
      }
    }

    lemma ChunkFree(s: seq<Ranges.Entry>, k: map<nat, Kind>, t: seq<Ranges.Entry>, l: map<nat, Kind>,
                    lo: nat, a: nat, n: nat, hi: nat, kind: Kind, e: Ranges.Entry)
      requires Valid() && t == tree.Contents() && l == kinds && FreeRegion(s, lo, hi) && Added(s, k, t, l, lo, a, kind)
      requires lo <= a && a + n == hi && e.base == a && Pow2(e.order) <= n
      ensures Ranges.Free(t, e)
    {
      assert FreeRegion(s, a, hi);
      StillFree(s, k, t, l, lo, a, hi, kind, next);
      FreeByPages(t, e);
    }

    /** Space::delreg: exactly one page loses its coverage. */
    method DelRegion(addr: nat)
      requires Valid()
      modifies this, tree, tree.repr
      ensures Valid() && fresh(tree.repr - old(tree.repr))
      ensures forall p: nat :: Coverage(p) == if p == addr / Pow2(PAGE_BITS) then None else old(Coverage(p))
    {
      var page := addr / Pow2(PAGE_BITS);
      var node := AvlSearch.Lookup(tree, page, false);
      ghost var s, k := tree.Contents(), kinds;
      if node == null { return; }
      Ranges.LookupMeaning(s, page, false);
      var e := node.key;
      PunchStart(s, k, e, next);
      var gone := AvlRemoval.Remove(tree, node);
      PutBack(e, page, kinds[e.id], s, k);
    }

    /** The end of Space::delreg. */
    method PutBack(e: Ranges.Entry, page: nat, kind: Kind, ghost s: seq<Ranges.Entry>, ghost k: map<nat, Kind>)
      requires Valid() && Ranges.Holds(e, page) && FreeRegion(tree.Contents(), e.base, Ranges.Top(e))
      requires forall p: nat {:trigger Coverage(p)} ::
                 if Ranges.Holds(e, p) then Coverage(p) == None && CoverageIn(s, k, p) == Some(kind)
                 else Coverage(p) == CoverageIn(s, k, p)
      modifies this, tree, tree.repr
      ensures Valid() && fresh(tree.repr - old(tree.repr))
      ensures forall p: nat :: Coverage(p) == if p == page then None else CoverageIn(s, k, p)
    {
      ghost var t, k0 := tree.Contents(), kinds;
      assert forall p: nat :: CoverageIn(t, k0, p) == Coverage(p);
      AddRegion(e.base, page - e.base, kind);
      ghost var u, l := tree.Contents(), kinds;
      AddedWider(t, k0, u, l, e.base, page, page + 1, kind);
      StillFree(t, k0, u, l, e.base, page + 1, Ranges.Top(e), kind, next);
      AddRegion(page + 1, Ranges.Top(e) - (page + 1), kind);
      PunchEnd(s, k, e, page, t, k0, u, l, tree.Contents(), kinds, kind);
    }
  }
}
