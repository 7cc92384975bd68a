/** Radix trees of page tables as src/pte.cpp builds them, for any number of levels and any fan-out. Addresses and
    frames are counted in pages. */
module Radix {
  import opened Bits

  type Fan = d: nat | d > 0 witness 1

  /** A table entry: a leaf carries the frame, the attributes and, in the format that records it, the order of the
      group of entries it was written in. */
  datatype Entry = Empty | Leaf(frame: nat, attr: nat, ord: nat) | Table(page: nat)

  type Tables = map<nat, seq<Entry>>

  /** Where a table belongs: the entries on the way to it. */
  datatype Place = Root | Sub(up: Place, i: nat)

  type Homes = map<nat, Place>

  /** The cell that holds the pointer to the top table is kept as a table of its own, of which only entry 0 is used. */
  const ROOT: nat := 0

  // ----- addresses

  /** The pages that one entry of level l spans when tables have d entries. */
  function Width(d: Fan, l: nat): (r: nat)
    ensures r > 0
  {
    if l == 0 then 1 else d * Width(d, l - 1)
  }

  function Index(d: Fan, v: nat, l: nat): (r: nat)
    ensures r < d
  {
    v / Width(d, l) % d
  }

  /** The place of the table in which v has its entry of level l; there are `top` levels below the root. */
  function PlaceOf(d: Fan, top: nat, v: nat, l: nat): Place
    decreases top - l
  {
    if l >= top then Root else Sub(PlaceOf(d, top, v, l + 1), Index(d, v, l + 1))
  }

  function Depth(p: Place): nat { if p.Root? then 0 else Depth(p.up) + 1 }

  lemma {:induction false} PlaceDepth(d: Fan, top: nat, v: nat, l: nat)
    requires l <= top
    ensures Depth(PlaceOf(d, top, v, l)) == top - l
    decreases top - l
  {
    if l < top { PlaceDepth(d, top, v, l + 1); }
  }

  /** p lies at or below q. */
  predicate Beneath(p: Place, q: Place) { p == q || (p.Sub? && Beneath(p.up, q)) }

  lemma {:induction false} BeneathDepth(p: Place, q: Place)
    requires Beneath(p, q)
    ensures Depth(p) >= Depth(q)
  {
    if p != q { BeneathDepth(p.up, q); }
  }

  // ----- meaning

  datatype Mapping = Unmapped | Mapped(frame: nat, attr: nat, size: nat)

  /** The pages that a group of 2^k entries of level l spans. */
  function Group(d: Fan, l: nat, k: nat): (r: nat)
    ensures r > 0
  {
    MulPositive(Width(d, l), Pow2(k));
    Width(d, l) * Pow2(k)
  }

  lemma MulPositive(a: nat, b: nat)
    requires a > 0 && b > 0
    ensures a * b > 0
  {
  }

  function RoundDown(f: nat, m: nat): nat
    requires m > 0
  {
    f - f % m
  }

  /** What a leaf of level l says about an address: the frame with its low `ord` bits cleared, or-ed with the offset,
      and the size of the group. */
  function ReadLeaf(d: Fan, l: nat, e: Entry, v: nat): Mapping {
    if e.Leaf? then
      var size := Group(d, l, e.ord);
      Mapped(Or(RoundDown(e.frame, Pow2(e.ord)), v % size), e.attr, size)
    else
      Unmapped
  }

  function At(tables: Tables, t: nat, i: nat): Entry {
    if t in tables && i < |tables[t]| then tables[t][i] else Empty
  }

  /** The address translation that starts at table t, whose entries have level l. */
  function Resolve(d: Fan, tables: Tables, l: nat, t: nat, v: nat): Mapping {
    var e := At(tables, t, Index(d, v, l));
    if l > 0 && e.Table? then Resolve(d, tables, l - 1, e.page, v) else ReadLeaf(d, l, e, v)
  }

  /** The translation reaches table u, of level m. */
  predicate Reach(d: Fan, tables: Tables, l: nat, t: nat, v: nat, m: nat, u: nat) {
    if l <= m then l == m && t == u
    else
      var e := At(tables, t, Index(d, v, l));
      e.Table? && Reach(d, tables, l - 1, e.page, v, m, u)
  }

  /** No large page lies above level m on the way of v. */
  predicate Clear(d: Fan, tables: Tables, l: nat, t: nat, v: nat, m: nat) {
    l <= m ||
    var e := At(tables, t, Index(d, v, l));
    !e.Leaf? && (e.Table? ==> Clear(d, tables, l - 1, e.page, v, m))
  }

  // ----- the invariant

  predicate EntryOk(top: nat, home: Homes, e: Entry, p: Place, i: nat) {
    e.Table? ==> Depth(p) < top && e.page in home && home[e.page] == Sub(p, i)
  }

  predicate TableOk(d: Fan, top: nat, tables: Tables, home: Homes, t: nat) {
    && t in home && t in tables && |tables[t]| == d && (t != ROOT ==> home[t].Sub?)
    && forall i | 0 <= i < d :: EntryOk(top, home, tables[t][i], home[t], i)
  }

  predicate IsParent(tables: Tables, home: Homes, t: nat, i: nat, u: nat) { t in home && At(tables, t, i) == Table(u) }

  ghost predicate HasParent(tables: Tables, home: Homes, u: nat) {
    exists t: nat, i: nat :: IsParent(tables, home, t, i, u)
  }

  /** `home` knows the tables in use; each belongs to one place, each entry points to the table of its place, and each
      table except the top one is pointed to. */
  ghost predicate Inv(d: Fan, top: nat, tables: Tables, home: Homes) {
    && ROOT in home && home[ROOT] == Root
    && (forall t {:trigger TableOk(d, top, tables, home, t)} | t in home :: TableOk(d, top, tables, home, t))
    && (forall t {:trigger HasParent(tables, home, t)} | t in home && t != ROOT :: HasParent(tables, home, t))
    && (forall t, u | t in home && u in home && home[t] == home[u] :: t == u)
  }

  /** Table t is the one for v at level l. */
  predicate For(d: Fan, top: nat, home: Homes, t: nat, l: nat, v: nat) {
    l <= top && t in home && home[t] == PlaceOf(d, top, v, l)
  }

  lemma NextTable(d: Fan, top: nat, tables: Tables, home: Homes, l: nat, t: nat, v: nat)
    requires Inv(d, top, tables, home) && For(d, top, home, t, l, v)
    ensures var e := At(tables, t, Index(d, v, l));
            && t in tables && |tables[t]| == d
            && EntryOk(top, home, e, home[t], Index(d, v, l))
            && (e.Table? ==> l > 0 && For(d, top, home, e.page, l - 1, v))
  {
    PlaceDepth(d, top, v, l);
    assert TableOk(d, top, tables, home, t);
    assert EntryOk(top, home, tables[t][Index(d, v, l)], home[t], Index(d, v, l));
  }

  // ----- paths

  lemma {:induction false} ReachFor(d: Fan, top: nat, tables: Tables, home: Homes, l: nat, t: nat, v: nat, m: nat,
                                    u: nat)
    requires Inv(d, top, tables, home) && For(d, top, home, t, l, v) && Reach(d, tables, l, t, v, m, u)
    ensures For(d, top, home, u, m, v)
    decreases l
  {
    NextTable(d, top, tables, home, l, t, v);
    if l > m { ReachFor(d, top, tables, home, l - 1, At(tables, t, Index(d, v, l)).page, v, m, u); }
  }

  /** Addresses that share the place of a table take the same way to it. */
  lemma {:induction false} SameIndex(d: Fan, top: nat, v: nat, w: nat, m: nat, l: nat)
    requires PlaceOf(d, top, v, m) == PlaceOf(d, top, w, m) && m < l <= top
    ensures Index(d, v, l) == Index(d, w, l)
    decreases l - m
  {
    if m + 1 < l { SameIndex(d, top, v, w, m + 1, l); }
  }

  lemma {:induction false} ReachSamePlace(d: Fan, top: nat, tables: Tables, l: nat, t: nat, v: nat, w: nat, m: nat,
                                          u: nat)
    requires Reach(d, tables, l, t, v, m, u) && PlaceOf(d, top, v, m) == PlaceOf(d, top, w, m) && l <= top
    ensures Reach(d, tables, l, t, w, m, u)
    decreases l
  {
    if l > m {
      SameIndex(d, top, v, w, m, l);
      ReachSamePlace(d, top, tables, l - 1, At(tables, t, Index(d, v, l)).page, v, w, m, u);
    }
  }

  lemma {:induction false} ReachResolve(d: Fan, tables: Tables, l: nat, t: nat, v: nat, m: nat, u: nat)
    requires Reach(d, tables, l, t, v, m, u)
    ensures Resolve(d, tables, l, t, v) == Resolve(d, tables, m, u, v)
    decreases l
  {
    if l > m { ReachResolve(d, tables, l - 1, At(tables, t, Index(d, v, l)).page, v, m, u); }
  }

  /** Without a large page above it, the table of level m on the way of a mapped address exists. */
  lemma {:induction false} FindTable(d: Fan, tables: Tables, l: nat, t: nat, v: nat, m: nat) returns (u: nat)
    requires m <= l && Clear(d, tables, l, t, v, m) && Resolve(d, tables, l, t, v) != Unmapped
    ensures Reach(d, tables, l, t, v, m, u) && Resolve(d, tables, m, u, v) != Unmapped
    decreases l
  {
    if l == m {
      u := t;
    } else {
      u := FindTable(d, tables, l - 1, At(tables, t, Index(d, v, l)).page, v, m);
    }
  }

  lemma {:induction false} ClearHigher(d: Fan, tables: Tables, l: nat, t: nat, v: nat, m: nat, n: nat)
    requires m <= n && Clear(d, tables, l, t, v, m)
    ensures Clear(d, tables, l, t, v, n)
    decreases l
  {
    var e := At(tables, t, Index(d, v, l));
    if l > n && e.Table? { ClearHigher(d, tables, l - 1, e.page, v, m, n); }
  }

  lemma {:induction false} ReachStep(d: Fan, tables: Tables, l: nat, t: nat, v: nat, m: nat, u: nat, x: nat)
    requires m > 0 && Reach(d, tables, l, t, v, m, u) && At(tables, u, Index(d, v, m)) == Table(x)
    ensures Reach(d, tables, l, t, v, m - 1, x)
    decreases l
  {
    if l > m { ReachStep(d, tables, l - 1, At(tables, t, Index(d, v, l)).page, v, m, u, x); }
  }

  lemma {:induction false} ClearAt(d: Fan, tables: Tables, l: nat, t: nat, v: nat, m: nat, u: nat, n: nat)
    requires Reach(d, tables, l, t, v, m, u) && Clear(d, tables, l, t, v, n) && n < m
    ensures !At(tables, u, Index(d, v, m)).Leaf?
    decreases l
  {
    if l > m { ClearAt(d, tables, l - 1, At(tables, t, Index(d, v, l)).page, v, m, u, n); }
  }

  lemma {:induction false} ReachUnique(d: Fan, tables: Tables, l: nat, t: nat, v: nat, m: nat, u: nat, w: nat)
    requires Reach(d, tables, l, t, v, m, u) && Reach(d, tables, l, t, v, m, w)
    ensures u == w
    decreases l
  {
    if l > m { ReachUnique(d, tables, l - 1, At(tables, t, Index(d, v, l)).page, v, m, u, w); }
  }

  /** Nothing is reached behind an entry that is no pointer. */
  lemma {:induction false} ReachStops(d: Fan, tables: Tables, l: nat, t: nat, v: nat, m: nat, u: nat, n: nat, w: nat)
    requires Reach(d, tables, l, t, v, m, u) && n < m && !At(tables, u, Index(d, v, m)).Table?
    ensures !Reach(d, tables, l, t, v, n, w)
    decreases l
  {
    if l > m { ReachStops(d, tables, l - 1, At(tables, t, Index(d, v, l)).page, v, m, u, n, w); }
  }

  /** An empty entry of v above level n leaves everything unmapped that shares the way of v down to level n. */
  lemma AbsentRange(d: Fan, top: nat, tables: Tables, v: nat, l: nat, t: nat, n: nat, w: nat)
    requires Reach(d, tables, top, ROOT, v, l, t) && n < l <= top && At(tables, t, Index(d, v, l)) == Empty
    requires PlaceOf(d, top, w, n) == PlaceOf(d, top, v, n)
    ensures Resolve(d, tables, top, ROOT, w) == Unmapped
  {
    SamePlaceUp(d, top, v, w, n, l);
    ReachSamePlace(d, top, tables, top, ROOT, v, w, l, t);
    ReachResolve(d, tables, top, ROOT, w, l, t);
    SameIndex(d, top, v, w, n, l);
  }

  lemma {:induction false} SamePlaceUp(d: Fan, top: nat, v: nat, w: nat, n: nat, l: nat)
    requires PlaceOf(d, top, v, n) == PlaceOf(d, top, w, n) && n <= l <= top
    ensures PlaceOf(d, top, v, l) == PlaceOf(d, top, w, l)
    decreases l - n
  {
    if n < l { SamePlaceUp(d, top, v, w, n + 1, l); }
  }

  // ----- changes of one entry

  /** `after` differs from `tables` only in entry i of table u and in tables outside `home`. */
  predicate OnlyEntry(d: Fan, tables: Tables, after: Tables, home: Homes, u: nat, i: nat) {
    forall t, k | t in home && 0 <= k < d && !(t == u && k == i) :: At(after, t, k) == At(tables, t, k)
  }

  /** Address v goes through entry i of the table of level m at place p. */
  predicate Hits(d: Fan, top: nat, v: nat, m: nat, p: Place, i: nat) {
    PlaceOf(d, top, v, m) == p && Index(d, v, m) == i
  }

  lemma {:induction false} ResolveElsewhere(d: Fan, top: nat, tables: Tables, after: Tables, home: Homes,
                                            l: nat, t: nat, v: nat, m: nat, u: nat, i: nat)
    requires Inv(d, top, tables, home) && For(d, top, home, t, l, v)
    requires u in home && Depth(home[u]) + m == top && OnlyEntry(d, tables, after, home, u, i)
    requires !Hits(d, top, v, m, home[u], i)
    ensures Resolve(d, after, l, t, v) == Resolve(d, tables, l, t, v)
    decreases l
  {
    NextTable(d, top, tables, home, l, t, v);
    PlaceDepth(d, top, v, l);
    var k := Index(d, v, l);
    assert At(after, t, k) == At(tables, t, k);
    if l > 0 && At(tables, t, k).Table? {
      ResolveElsewhere(d, top, tables, after, home, l - 1, At(tables, t, k).page, v, m, u, i);
    }
  }

  /** The way to a table does not depend on the entries of that table. */
  lemma {:induction false} ReachKept(d: Fan, top: nat, tables: Tables, after: Tables, home: Homes,
                                     l: nat, t: nat, v: nat, m: nat, u: nat, i: nat)
    requires Inv(d, top, tables, home) && For(d, top, home, t, l, v) && Reach(d, tables, l, t, v, m, u)
    requires u in home && Depth(home[u]) + m == top && OnlyEntry(d, tables, after, home, u, i)
    ensures Reach(d, after, l, t, v, m, u)
    decreases l
  {
    if l > m {
      NextTable(d, top, tables, home, l, t, v);
      PlaceDepth(d, top, v, l);
      var k := Index(d, v, l);
      assert At(after, t, k) == At(tables, t, k);
      ReachKept(d, top, tables, after, home, l - 1, At(tables, t, k).page, v, m, u, i);
    }
  }

  lemma {:induction false} ClearKept(d: Fan, top: nat, tables: Tables, after: Tables, home: Homes,
                                     l: nat, t: nat, w: nat, m: nat, u: nat, i: nat)
    requires Inv(d, top, tables, home) && For(d, top, home, t, l, w) && Clear(d, tables, l, t, w, m)
    requires u in home && Depth(home[u]) + m == top && OnlyEntry(d, tables, after, home, u, i)
    ensures Clear(d, after, l, t, w, m)
    decreases l
  {
    if l > m {
      NextTable(d, top, tables, home, l, t, w);
      PlaceDepth(d, top, w, l);
      var k := Index(d, w, l);
      assert At(after, t, k) == At(tables, t, k);
      if At(tables, t, k).Table? { ClearKept(d, top, tables, after, home, l - 1, At(tables, t, k).page, w, m, u, i); }
    }
  }

  /** What a change of entry i of table u, which v reaches, does to the translation of w. */
  lemma ResolveAfter(d: Fan, top: nat, tables: Tables, after: Tables, home: Homes, v: nat, m: nat, u: nat, i: nat,
                     w: nat)
    requires Inv(d, top, tables, home) && Reach(d, tables, top, ROOT, v, m, u) && m <= top && u in home
    requires OnlyEntry(d, tables, after, home, u, i)
    ensures Reach(d, after, top, ROOT, v, m, u) && home[u] == PlaceOf(d, top, v, m)
    ensures Hits(d, top, w, m, home[u], i) ==> Resolve(d, tables, top, ROOT, w) == Resolve(d, tables, m, u, w)
                                               && Resolve(d, after, top, ROOT, w) == Resolve(d, after, m, u, w)
    ensures !Hits(d, top, w, m, home[u], i) ==> Resolve(d, after, top, ROOT, w) == Resolve(d, tables, top, ROOT, w)
  {
    ReachFor(d, top, tables, home, top, ROOT, v, m, u);
    PlaceDepth(d, top, v, m);
    ReachKept(d, top, tables, after, home, top, ROOT, v, m, u, i);
    if Hits(d, top, w, m, home[u], i) {
      ReachSamePlace(d, top, tables, top, ROOT, v, w, m, u);
      ReachSamePlace(d, top, after, top, ROOT, v, w, m, u);
      ReachResolve(d, tables, top, ROOT, w, m, u);
      ReachResolve(d, after, top, ROOT, w, m, u);
    } else {
      ResolveElsewhere(d, top, tables, after, home, top, ROOT, w, m, u, i);
    }
  }

  // ----- a new table

  function Zeros(d: Fan): seq<Entry> { seq(d, _ => Empty) }

  function Linked(d: Fan, tables: Tables, t: nat, i: nat, page: nat): Tables
    requires t in tables && i < |tables[t]|
  {
    tables[page := Zeros(d)][t := tables[t][i := Table(page)]]
  }

  /** An empty entry above level 0, and a page to put there. */
  ghost predicate Vacant(d: Fan, top: nat, tables: Tables, home: Homes, t: nat, i: nat, page: nat) {
    && Inv(d, top, tables, home) && page !in tables
    && t in home && t in tables && Depth(home[t]) < top && i < d == |tables[t]| && tables[t][i] == Empty
  }

  lemma NoTableYet(d: Fan, top: nat, tables: Tables, home: Homes, t: nat, i: nat, page: nat, u: nat)
    requires Vacant(d, top, tables, home, t, i, page) && u in home && u != ROOT
    ensures home[u] != Sub(home[t], i)
  {
    assert HasParent(tables, home, u);
    var p: nat, k: nat :| IsParent(tables, home, p, k, u);
    assert TableOk(d, top, tables, home, p);
    assert EntryOk(top, home, tables[p][k], home[p], k);
  }

  lemma LinkedTable(d: Fan, top: nat, tables: Tables, home: Homes, t: nat, i: nat, page: nat, u: nat)
    requires Vacant(d, top, tables, home, t, i, page) && u in home
    ensures TableOk(d, top, Linked(d, tables, t, i, page), home[page := Sub(home[t], i)], u)
  {
    assert TableOk(d, top, tables, home, u);
    var after, next := Linked(d, tables, t, i, page), home[page := Sub(home[t], i)];
    forall k | 0 <= k < d ensures EntryOk(top, next, after[u][k], next[u], k) {
      var e := tables[u][k];
      assert EntryOk(top, home, e, home[u], k);
      if e.Table? { assert TableOk(d, top, tables, home, e.page); }
    }
  }

  lemma LinkedParent(d: Fan, top: nat, tables: Tables, home: Homes, t: nat, i: nat, page: nat, u: nat)
    requires Vacant(d, top, tables, home, t, i, page) && u in home && u != ROOT
    ensures HasParent(Linked(d, tables, t, i, page), home[page := Sub(home[t], i)], u)
  {
    assert HasParent(tables, home, u);
    var p: nat, k: nat :| IsParent(tables, home, p, k, u);
    assert TableOk(d, top, tables, home, p);
    assert IsParent(Linked(d, tables, t, i, page), home[page := Sub(home[t], i)], p, k, u);
  }

  /** Hooking a zeroed table into an empty entry keeps the invariant. */
  lemma LinkedInv(d: Fan, top: nat, tables: Tables, home: Homes, t: nat, i: nat, page: nat)
    requires Vacant(d, top, tables, home, t, i, page)
    ensures Inv(d, top, Linked(d, tables, t, i, page), home[page := Sub(home[t], i)])
    ensures OnlyEntry(d, tables, Linked(d, tables, t, i, page), home, t, i)
  {
    var after, next := Linked(d, tables, t, i, page), home[page := Sub(home[t], i)];
    assert forall u | u in home :: TableOk(d, top, tables, home, u);
    assert page !in home;
    forall u | u in next ensures TableOk(d, top, after, next, u) {
      if u != page { LinkedTable(d, top, tables, home, t, i, page, u); }
    }
    forall u | u in next && u != ROOT ensures HasParent(after, next, u) {
      if u == page {
        assert IsParent(after, next, t, i, u);
      } else {
        LinkedParent(d, top, tables, home, t, i, page, u);
      }
    }
    forall u | u in home && u != ROOT ensures home[u] != next[page] {
      NoTableYet(d, top, tables, home, t, i, page, u);
    }
  }

  /** ... and every translation. */
  lemma LinkedMeaning(d: Fan, top: nat, tables: Tables, home: Homes, v: nat, l: nat, t: nat, page: nat, w: nat)
    requires Vacant(d, top, tables, home, t, Index(d, v, l), page) && Reach(d, tables, top, ROOT, v, l, t)
             && 0 < l <= top
    ensures var after := Linked(d, tables, t, Index(d, v, l), page);
            && Resolve(d, after, top, ROOT, w) == Resolve(d, tables, top, ROOT, w)
            && Reach(d, after, top, ROOT, v, l - 1, page)
  {
    var i := Index(d, v, l);
    var after := Linked(d, tables, t, i, page);
    LinkedInv(d, top, tables, home, t, i, page);
    ResolveAfter(d, top, tables, after, home, v, l, t, i, w);
    ReachStep(d, after, top, ROOT, v, l, t, page);
    assert At(after, page, Index(d, w, l - 1)) == Empty;
  }

  lemma {:induction false} LinkedClear(d: Fan, top: nat, tables: Tables, home: Homes, t: nat, i: nat, page: nat,
                                       l: nat, x: nat, w: nat, m: nat)
    requires Vacant(d, top, tables, home, t, i, page) && For(d, top, home, x, l, w) && Clear(d, tables, l, x, w, m)
    ensures Clear(d, Linked(d, tables, t, i, page), l, x, w, m)
    decreases l
  {
    if l > m {
      NextTable(d, top, tables, home, l, x, w);
      var after, k := Linked(d, tables, t, i, page), Index(d, w, l);
      assert TableOk(d, top, tables, home, x);
      var e := At(tables, x, k);
      if e.Table? {
        LinkedClear(d, top, tables, home, t, i, page, l - 1, e.page, w, m);
      } else if x == t && k == i {
        assert l - 1 <= m || At(after, page, Index(d, w, l - 1)) == Empty;
      }
    }
  }

  // ----- an overwritten entry

  /** The tables that stay in use when everything below entry i of the table at place p is cut off. */
  function Pruned(home: Homes, p: Place, i: nat): Homes { map u | u in home && !Beneath(home[u], Sub(p, i)) :: home[u] }

  function Written(tables: Tables, t: nat, i: nat, e: Entry): Tables
    requires t in tables && i < |tables[t]|
  {
    tables[t := tables[t][i := e]]
  }

  lemma WrittenTable(d: Fan, top: nat, tables: Tables, home: Homes, t: nat, i: nat, e: Entry, u: nat)
    requires Inv(d, top, tables, home) && t in home && t in tables && i < |tables[t]| && !e.Table?
    requires u in Pruned(home, home[t], i)
    ensures TableOk(d, top, Written(tables, t, i, e), Pruned(home, home[t], i), u)
  {
    var after, next := Written(tables, t, i, e), Pruned(home, home[t], i);
    assert TableOk(d, top, tables, home, u);
    forall k | 0 <= k < d ensures EntryOk(top, next, after[u][k], next[u], k) {
      assert EntryOk(top, home, tables[u][k], home[u], k);
    }
  }

  lemma WrittenParent(d: Fan, top: nat, tables: Tables, home: Homes, t: nat, i: nat, e: Entry, u: nat)
    requires Inv(d, top, tables, home) && t in home && t in tables && i < |tables[t]| && !e.Table?
    requires u in Pruned(home, home[t], i) && u != ROOT
    ensures HasParent(Written(tables, t, i, e), Pruned(home, home[t], i), u)
  {
    assert HasParent(tables, home, u);
    var p: nat, k: nat :| IsParent(tables, home, p, k, u);
    assert TableOk(d, top, tables, home, p);
    assert EntryOk(top, home, tables[p][k], home[p], k);
    assert IsParent(Written(tables, t, i, e), Pruned(home, home[t], i), p, k, u);
  }

  lemma WrittenInv(d: Fan, top: nat, tables: Tables, home: Homes, t: nat, i: nat, e: Entry)
    requires Inv(d, top, tables, home) && t in home && t in tables && i < |tables[t]| && !e.Table?
    ensures t in Pruned(home, home[t], i) && Inv(d, top, Written(tables, t, i, e), Pruned(home, home[t], i))
    ensures OnlyEntry(d, tables, Written(tables, t, i, e), home, t, i)
    ensures tables[t][i].Table? ==> tables[t][i].page !in Pruned(home, home[t], i)
  {
    var after, next := Written(tables, t, i, e), Pruned(home, home[t], i);
    assert TableOk(d, top, tables, home, t);
    assert EntryOk(top, home, tables[t][i], home[t], i);
    if Beneath(home[t], Sub(home[t], i)) { BeneathDepth(home[t], Sub(home[t], i)); }
    forall u | u in next ensures TableOk(d, top, after, next, u) {
      WrittenTable(d, top, tables, home, t, i, e, u);
    }
    forall u | u in next && u != ROOT ensures HasParent(after, next, u) {
      WrittenParent(d, top, tables, home, t, i, e, u);
    }
  }

  /** Tables that are not in use may go away. */
  lemma DroppedInv(d: Fan, top: nat, tables: Tables, home: Homes, page: nat)
    requires Inv(d, top, tables, home) && page !in home
    ensures Inv(d, top, tables - {page}, home)
  {
    var after := tables - {page};
    forall u | u in home ensures TableOk(d, top, after, home, u) && after[u] == tables[u] {
      assert TableOk(d, top, tables, home, u);
    }
    forall u | u in home && u != ROOT ensures HasParent(after, home, u) {
      assert HasParent(tables, home, u);
      var p: nat, k: nat :| IsParent(tables, home, p, k, u);
      assert IsParent(after, home, p, k, u);
    }
  }

  lemma {:induction false} DroppedPath(d: Fan, top: nat, tables: Tables, home: Homes, page: nat, l: nat, t: nat, w: nat)
    requires Inv(d, top, tables, home) && page !in home && For(d, top, home, t, l, w)
    ensures Resolve(d, tables - {page}, l, t, w) == Resolve(d, tables, l, t, w)
    ensures forall m, u :: Reach(d, tables, l, t, w, m, u) ==> Reach(d, tables - {page}, l, t, w, m, u)
    ensures forall m :: Clear(d, tables, l, t, w, m) ==> Clear(d, tables - {page}, l, t, w, m)
    decreases l
  {
    NextTable(d, top, tables, home, l, t, w);
    var e := At(tables, t, Index(d, w, l));
    assert At(tables - {page}, t, Index(d, w, l)) == e;
    if e.Table? { DroppedPath(d, top, tables, home, page, l - 1, e.page, w); }
  }

  /** The tables after entry i of table u was overwritten and, if `drop` says so, the table it pointed to was freed. */
  function Overwritten(tables: Tables, u: nat, i: nat, e: Entry, drop: bool): Tables
    requires u in tables && i < |tables[u]|
  {
    var was := tables[u][i];
    (if drop && was.Table? then tables - {was.page} else tables)[u := tables[u][i := e]]
  }

  /** What writing a leaf or nothing into entry i of table u, which v reaches, does to everything else. */
  lemma OverwriteInv(d: Fan, top: nat, tables: Tables, home: Homes, u: nat, i: nat, e: Entry, drop: bool)
    requires Inv(d, top, tables, home) && u in home && u in tables && i < |tables[u]| && !e.Table?
    ensures u in Pruned(home, home[u], i)
    ensures Inv(d, top, Overwritten(tables, u, i, e, drop), Pruned(home, home[u], i))
  {
    WrittenInv(d, top, tables, home, u, i, e);
    var was := tables[u][i];
    if drop && was.Table? {
      DroppedInv(d, top, Written(tables, u, i, e), Pruned(home, home[u], i), was.page);
      assert Overwritten(tables, u, i, e, drop) == Written(tables, u, i, e) - {was.page};
    }
  }

  lemma OverwriteMeaning(d: Fan, top: nat, tables: Tables, home: Homes, v: nat, l: nat, u: nat, i: nat, e: Entry,
                         drop: bool, w: nat)
    requires Inv(d, top, tables, home) && u in home && u in tables && i < |tables[u]| && !e.Table?
    requires Reach(d, tables, top, ROOT, v, l, u) && l <= top
    ensures home[u] == PlaceOf(d, top, v, l)
    ensures var after := Overwritten(tables, u, i, e, drop);
            && Reach(d, after, top, ROOT, v, l, u)
            && (Clear(d, tables, top, ROOT, w, l) ==> Clear(d, after, top, ROOT, w, l))
            && Resolve(d, after, top, ROOT, w) == if Hits(d, top, w, l, home[u], i) then ReadLeaf(d, l, e, w)
                                                  else Resolve(d, tables, top, ROOT, w)
  {
    var mid, next, was := Written(tables, u, i, e), Pruned(home, home[u], i), tables[u][i];
    WrittenInv(d, top, tables, home, u, i, e);
    ResolveAfter(d, top, tables, mid, home, v, l, u, i, w);
    PlaceDepth(d, top, v, l);
    if Clear(d, tables, top, ROOT, w, l) { ClearKept(d, top, tables, mid, home, top, ROOT, w, l, u, i); }
    assert next[ROOT] == Root;
    if drop && was.Table? {
      DroppedPath(d, top, mid, next, was.page, top, ROOT, w);
      DroppedPath(d, top, mid, next, was.page, top, ROOT, v);
      assert Overwritten(tables, u, i, e, drop) == mid - {was.page};
    }
  }
}
