/** The slab cache of src/slab.cpp: slabs with free objects come first in its list, full ones last, and `curr` is the
    last one with free objects. */
module SlabCaches {
  import opened Options
  import opened Lists
  import opened Counting
  import opened Machine
  import opened SlabList
  import opened SlabLayout
  import Quotas

  // ----- objects of one slab

  predicate SlabOk(y: Layout, m: Slabs, x: nat) {
    && x in m && m[x].avail == |m[x].free| <= y.elem && Distinct(m[x].free)
    && forall p | p in m[x].free :: IsObject(y, x, p)
  }

  /** p has been handed out and not been taken back. */
  predicate IsLive(y: Layout, m: Slabs, p: nat) {
    var x := p / PAGE;
    x in m && IsObject(y, x, p) && p !in m[x].free
  }

  function Objects(y: Layout, page: nat, n: nat): set<int> {
    if n == 0 then {} else Objects(y, page, n - 1) + {Object(y, page, n - 1)}
  }

  lemma {:induction false} ObjectsCount(y: Layout, page: nat, n: nat)
    ensures |Objects(y, page, n)| <= n
    ensures forall j: nat | j < n :: Object(y, page, j) in Objects(y, page, n)
  {
    if n > 0 { ObjectsCount(y, page, n - 1); }
  }

  function Elements(l: seq<nat>): set<int> { set i | 0 <= i < |l| :: l[i] }

  lemma {:induction false} DistinctCount(l: seq<nat>)
    requires Distinct(l)
    ensures |Elements(l)| == |l|
    decreases |l|
  {
    if l != [] {
      var k := l[..|l| - 1];
      DistinctCount(k);
      assert forall i | 0 <= i < |k| :: k[i] == l[i];
      assert Elements(l) == Elements(k) + {l[|l| - 1]};
    }
  }

  /** A slab with a live object has room on its free list. */
  lemma LiveMeansRoom(y: Layout, m: Slabs, p: nat)
    requires IsLive(y, m, p) && SlabOk(y, m, p / PAGE)
    ensures m[p / PAGE].avail < y.elem
  {
    var x := p / PAGE;
    var l, all := m[x].free, Objects(y, x, y.elem);
    ObjectsCount(y, x, y.elem);
    DistinctCount(l);
    forall q | q in Elements(l) ensures q in all - {p} {
      assert q in l && IsObject(y, x, q);
    }
    SubsetSize(Elements(l), all - {p});
    assert p in all;
  }

  lemma {:induction false} ObjectsExact(y: Layout, page: nat, n: nat)
    requires Fits(y) && n <= y.elem
    ensures |Objects(y, page, n)| == n
    ensures forall q | q in Objects(y, page, n) :: exists j: nat :: j < n && q == Object(y, page, j)
  {
    if n > 0 {
      ObjectsExact(y, page, n - 1);
      forall j: nat | j < n - 1 ensures Object(y, page, j) != Object(y, page, n - 1) {
        ObjectsApart(y, page, j, n - 1);
      }
      assert Object(y, page, n - 1) !in Objects(y, page, n - 1);
    }
  }

  /** A slab with room on its free list for more has handed out an object. */
  lemma FindLive(y: Layout, m: Slabs, x: nat) returns (p: nat)
    requires Fits(y) && SlabOk(y, m, x) && m[x].avail < y.elem
    ensures IsLive(y, m, p) && p / PAGE == x
  {
    var l, all := m[x].free, Objects(y, x, y.elem);
    ObjectsExact(y, x, y.elem);
    DistinctCount(l);
    var q := OneMissing(all, Elements(l));
    var j: nat :| j < y.elem && q == Object(y, x, j);
    ObjectInPage(y, x, j);
    p := q;
    assert p in l ==> p in Elements(l);
  }

  // ----- slabs without live objects and without free ones

  /** No object of slab z is live. */
  ghost predicate Spare(y: Layout, m: Slabs, z: nat) { z in m && forall q: nat :: IsLive(y, m, q) ==> q / PAGE != z }

  lemma SpareMeansEmpty(y: Layout, m: Slabs, z: nat)
    requires Fits(y) && SlabOk(y, m, z)
    ensures Spare(y, m, z) <==> m[z].avail == y.elem
  {
    forall q: nat | IsLive(y, m, q) && q / PAGE == z ensures m[z].avail < y.elem {
      LiveMeansRoom(y, m, q);
    }
    if m[z].avail < y.elem { var q := FindLive(y, m, z); }
  }

  /** p is the only live object of its slab. */
  ghost predicate LastLive(y: Layout, m: Slabs, p: nat) {
    IsLive(y, m, p) && forall q: nat :: IsLive(y, m, q) && q / PAGE == p / PAGE ==> q == p
  }

  /** Another slab than that of p holds no live object. */
  ghost predicate OtherSpare(y: Layout, m: Slabs, p: nat) { exists z: nat :: z != p / PAGE && Spare(y, m, z) }

  /** No slab has a free object. */
  ghost predicate AllTaken(y: Layout, m: Slabs) {
    forall q: nat :: q / PAGE in m && IsObject(y, q / PAGE, q) ==> IsLive(y, m, q)
  }

  lemma TakenMeansFull(y: Layout, m: Slabs)
    requires Fits(y) && forall z | z in m :: SlabOk(y, m, z)
    ensures AllTaken(y, m) <==> forall z | z in m :: m[z].avail == 0
  {
    forall z | z in m && m[z].avail > 0 ensures !AllTaken(y, m) {
      assert SlabOk(y, m, z);
      var p := m[z].free[0];
      assert p in m[z].free;
      var j: nat :| j < y.elem && p == Object(y, z, j);
      ObjectInPage(y, z, j);
      assert !IsLive(y, m, p);
    }
    if forall z | z in m :: m[z].avail == 0 {
      forall q: nat | q / PAGE in m && IsObject(y, q / PAGE, q) ensures IsLive(y, m, q) {
        assert SlabOk(y, m, q / PAGE);
      }
    }
  }

  // ----- the invariant

  /** With at least two objects per slab only the first slab can be empty; l are the slabs with free objects. */
  predicate OnlyHeadEmpty(y: Layout, m: Slabs, l: seq<nat>) {
    y.elem >= 2 ==> forall t | 0 < t < |l| && l[t] in m :: m[l[t]].avail < y.elem
  }

  predicate WithAvail(m: Slabs, l: seq<nat>) { forall x {:trigger x in l} | x in l :: x in m && m[x].avail > 0 }

  predicate Full(m: Slabs, l: seq<nat>) { forall x {:trigger x in l} | x in l :: x in m && m[x].avail == 0 }

  /** Everything but the order of the list. */
  ghost predicate Loose(y: Layout, m: Slabs, l: seq<nat>) {
    && Fits(y) && Chain(m, l) && (forall x {:trigger x in l} | x in m :: x in l)
    && (forall x {:trigger SlabOk(y, m, x)} | x in m :: SlabOk(y, m, x))
  }

  ghost predicate Good(y: Layout, m: Slabs, front: seq<nat>, back: seq<nat>) {
    Loose(y, m, front + back) && Order(y, m, front, back)
  }

  /** Slabs with free objects, then full ones. */
  predicate Order(y: Layout, m: Slabs, front: seq<nat>, back: seq<nat>) {
    WithAvail(m, front) && Full(m, back) && OnlyHeadEmpty(y, m, front)
  }

  lemma Members(m: Slabs, l: seq<nat>, x: nat)
    requires Chain(m, l) && x in l
    ensures x in m
  {
    var t :| 0 <= t < |l| && l[t] == x;
    assert Linked(m, l, t);
  }

  lemma Apart(front: seq<nat>, back: seq<nat>, x: nat)
    requires Distinct(front + back)
    ensures !(x in front && x in back) && Distinct(front) && Distinct(back)
  {
    var l := front + back;
    assert forall i | 0 <= i < |front| :: l[i] == front[i];
    assert forall i | 0 <= i < |back| :: l[|front| + i] == back[i];
  }

  function NewSlab(free: seq<nat>): Slab { Slab(|free|, None, None, free) }

  predicate FreshObjects(y: Layout, page: nat, free: seq<nat>) {
    |free| == y.elem && Distinct(free) && forall p | p in free :: IsObject(y, page, p)
  }

  ghost predicate SameLive(y: Layout, m: Slabs, n: Slabs) {
    forall p: nat {:trigger IsLive(y, n, p)} :: IsLive(y, n, p) <==> IsLive(y, m, p)
  }

  lemma {:induction false} AllObjectsListed(y: Layout, page: nat, free: seq<nat>, p: nat)
    requires Fits(y) && FreshObjects(y, page, free) && IsObject(y, page, p)
    ensures p in free
  {
    var all := Objects(y, page, y.elem);
    ObjectsCount(y, page, y.elem);
    DistinctCount(free);
    if p !in free {
      forall q | q in Elements(free) ensures q in all - {p} {
        assert q in free && IsObject(y, page, q);
      }
      assert p in all;
      SubsetSize(Elements(free), all - {p});
    }
  }

  // ----- taking an object

  function Popped(s: Slab): Slab
    requires s.avail > 0 && s.free != []
  {
    s.(avail := s.avail - 1, free := s.free[1..])
  }

  /** The list after an object was taken from its last slab with free objects. */
  function FrontAfter(m: Slabs, front: seq<nat>): seq<nat>
    requires front != [] && front[|front| - 1] in m
  {
    var x := front[|front| - 1];
    if m[x].avail == 1 then front[..|front| - 1] else front
  }

  function BackAfter(m: Slabs, front: seq<nat>, back: seq<nat>): seq<nat>
    requires front != [] && front[|front| - 1] in m
  {
    var x := front[|front| - 1];
    if m[x].avail == 1 then [x] + back else back
  }

  lemma LastInFront(y: Layout, m: Slabs, front: seq<nat>, back: seq<nat>)
    requires Good(y, m, front, back) && front != []
    ensures var x := front[|front| - 1];
            && x in m && m[x].avail > 0 && m[x].free != [] && SlabOk(y, m, x)
            && m[x].prev == Spot(front, |front| - 2)
            && (m[x].next.None? || (m[x].next.value in m && m[x].next.value in back && m[m[x].next.value].avail == 0))
  {
    var l, t := front + back, |front| - 1;
    assert l[t] == front[t] && front[t] in front;
    assert Linked(m, l, t) && SlabOk(y, m, l[t]);
    if t + 1 < |l| { assert l[t + 1] == back[0] && back[0] in back; }
    if t > 0 { assert l[t - 1] == front[t - 1]; }
  }

  lemma TakeLists(m: Slabs, front: seq<nat>, back: seq<nat>)
    requires front != [] && front[|front| - 1] in m
    ensures FrontAfter(m, front) + BackAfter(m, front, back) == front + back
  {
  }

  lemma TakeGood(y: Layout, m: Slabs, front: seq<nat>, back: seq<nat>)
    requires Good(y, m, front, back) && front != [] && front[|front| - 1] in m
    requires m[front[|front| - 1]].avail > 0 && m[front[|front| - 1]].free != []
    ensures var x := front[|front| - 1];
            Good(y, m[x := Popped(m[x])], FrontAfter(m, front), BackAfter(m, front, back))
  {
    TakeLoose(y, m, front + back, front[|front| - 1]) by { Members(m, front + back, front[|front| - 1]); }
    TakeOrder(y, m, front, back);
  }

  lemma TakeLoose(y: Layout, m: Slabs, l: seq<nat>, x: nat)
    requires Loose(y, m, l) && x in m && m[x].avail > 0 && m[x].free != []
    ensures Loose(y, m[x := Popped(m[x])], l)
  {
    var n := m[x := Popped(m[x])];
    ObjectsChain(m, l, x, Popped(m[x]));
    forall z | z in n ensures SlabOk(y, n, z) {
      assert SlabOk(y, m, z);
      if z == x { PoppedOk(m[x].free); }
    }
  }

  lemma TakeOrder(y: Layout, m: Slabs, front: seq<nat>, back: seq<nat>)
    requires Order(y, m, front, back) && Distinct(front + back) && front != [] && front[|front| - 1] in m
    requires m[front[|front| - 1]].avail > 0 && m[front[|front| - 1]].free != []
    ensures var x := front[|front| - 1];
            var n, f, b := m[x := Popped(m[x])], FrontAfter(m, front), BackAfter(m, front, back);
            f + b == front + back && Order(y, n, f, b)
  {
    var x := front[|front| - 1];
    var f, b := FrontAfter(m, front), BackAfter(m, front, back);
    TakeLists(m, front, back);
    Apart(front, back, x);
    assert forall i | 0 <= i < |front| - 1 :: front[i] != x;
    assert forall z | z in f :: z in front && (z == x ==> m[x].avail > 1);
    assert forall z | z in b :: z == x || z in back;
  }

  lemma PoppedOk(l: seq<nat>)
    requires Distinct(l) && l != []
    ensures Distinct(l[1..]) && l[0] !in l[1..] && forall p | p in l[1..] :: p in l
  {
    assert forall i | 0 <= i < |l| - 1 :: l[1..][i] == l[i + 1];
  }

  /** The object on top of the free list becomes live. */
  lemma TakeLive(y: Layout, m: Slabs, x: nat)
    requires Fits(y) && x in m && m[x].avail > 0 && m[x].free != [] && SlabOk(y, m, x)
    ensures var p, n := m[x].free[0], m[x := Popped(m[x])];
            && IsObject(y, x, p) && p / PAGE == x && !IsLive(y, m, p)
            && forall q: nat {:trigger IsLive(y, n, q)} :: IsLive(y, n, q) <==> IsLive(y, m, q) || q == p
  {
    var p, n := m[x].free[0], m[x := Popped(m[x])];
    assert p in m[x].free;
    assert IsObject(y, x, p);
    var j: nat :| j < y.elem && p == Object(y, x, j);
    ObjectInPage(y, x, j);
    PoppedOk(m[x].free);
    assert m[x].free == [p] + m[x].free[1..];
  }

  // ----- giving one back

  function Pushed(s: Slab, p: nat): Slab { s.(avail := s.avail + 1, free := [p] + s.free) }

  /** The objects after p was given back. */
  lemma PutLive(y: Layout, m: Slabs, p: nat)
    requires IsLive(y, m, p) && SlabOk(y, m, p / PAGE)
    ensures var x := p / PAGE;
            var n := m[x := Pushed(m[x], p)];
            && SlabOk(y, n, x)
            && forall q: nat {:trigger IsLive(y, n, q)} :: IsLive(y, n, q) <==> IsLive(y, m, q) && q != p
  {
    LiveMeansRoom(y, m, p);
    var x := p / PAGE;
    assert forall q | q in [p] + m[x].free :: q == p || q in m[x].free;
  }

  /** Giving back the last live object empties its slab. */
  lemma LastMeansEmptied(y: Layout, m: Slabs, p: nat)
    requires Fits(y) && IsLive(y, m, p) && SlabOk(y, m, p / PAGE)
    ensures LastLive(y, m, p) <==> m[p / PAGE].avail + 1 == y.elem
  {
    var x := p / PAGE;
    var n := m[x := Pushed(m[x], p)];
    PutLive(y, m, p);
    SpareMeansEmpty(y, n, x);
    assert LastLive(y, m, p) <==> Spare(y, n, x) by {
      if LastLive(y, m, p) {
        forall q: nat | IsLive(y, n, q) ensures q / PAGE != x { assert IsLive(y, m, q) && q != p; }
      }
      if Spare(y, n, x) {
        forall q: nat | IsLive(y, m, q) && q / PAGE == x ensures q == p {
          assert IsLive(y, n, q) <==> IsLive(y, m, q) && q != p;
        }
      }
    }
  }

  lemma LinksSameLive(y: Layout, m: Slabs, n: Slabs)
    requires OnlyLinks(m, n)
    ensures SameLive(y, m, n)
  {
    forall p: nat ensures IsLive(y, n, p) <==> IsLive(y, m, p) {
      assert SameObjects(m, n, p / PAGE);
    }
  }

  lemma PutLoose(y: Layout, m: Slabs, l: seq<nat>, p: nat)
    requires Loose(y, m, l) && IsLive(y, m, p)
    ensures Loose(y, m[p / PAGE := Pushed(m[p / PAGE], p)], l)
  {
    var x := p / PAGE;
    assert SlabOk(y, m, x);
    PutLive(y, m, p);
    ObjectsChain(m, l, x, Pushed(m[x], p));
    var n := m[x := Pushed(m[x], p)];
    forall z | z in n ensures SlabOk(y, n, z) {
      if z != x { assert SlabOk(y, m, z); }
    }
  }

  // ----- taking a slab out of the list

  /** Slab x is not on the list, all others are. */
  ghost predicate Outside(y: Layout, m: Slabs, l: seq<nat>, x: nat) {
    && Fits(y) && Chain(m, l) && x in m && x !in l && (forall z {:trigger z in l} | z in m :: z == x || z in l)
    && (forall z {:trigger SlabOk(y, m, z)} | z in m :: SlabOk(y, m, z))
  }

  lemma LinksSlabOk(y: Layout, m: Slabs, n: Slabs)
    requires OnlyLinks(m, n) && forall z | z in m :: SlabOk(y, m, z)
    ensures forall z | z in n :: SlabOk(y, n, z)
    ensures forall z :: z in n <==> z in m
  {
    forall z: nat ensures z in n <==> z in m {
      assert SameObjects(m, n, z);
    }
    forall z | z in n ensures SlabOk(y, n, z) {
      assert SameObjects(m, n, z) && SlabOk(y, m, z);
    }
  }

  lemma TakenOut(y: Layout, m: Slabs, l: seq<nat>, t: nat)
    requires Loose(y, m, l) && 0 < t < |l|
    ensures l[t] in m && m[l[t]].prev == Some(l[t - 1]) && l[t - 1] in m && m[l[t]].next == Spot(l, t + 1)
    ensures m[l[t]].next.Some? ==> m[l[t]].next.value in m
    ensures Outside(y, Unlinked(m, l[t]), Dropped(l, t), l[t]) && OnlyLinks(m, Unlinked(m, l[t]))
  {
    UnlinkReady(m, l, t);
    UnlinkChain(m, l, t);
    LinksSlabOk(y, m, Unlinked(m, l[t]));
    DroppedAt(l, t, 0);
    assert forall z | z in l :: z == l[t] || z in Dropped(l, t);
  }

  lemma PutAfter(y: Layout, m: Slabs, l: seq<nat>, t: nat, x: nat)
    requires Outside(y, m, l, x) && t + 1 < |l|
    ensures l[t] in m && m[l[t]].next == Some(l[t + 1]) && l[t + 1] in m
    ensures Loose(y, LinkedAfter(m, l[t], x), Inserted(l, t + 1, x)) && OnlyLinks(m, LinkedAfter(m, l[t], x))
  {
    LinkAfterChain(m, l, t, x);
    LinksSlabOk(y, m, LinkedAfter(m, l[t], x));
    forall z | z in LinkedAfter(m, l[t], x) ensures z in Inserted(l, t + 1, x) {
      assert z == x || z in l;
    }
  }

  lemma PutFirst(y: Layout, m: Slabs, l: seq<nat>, x: nat)
    requires Outside(y, m, l, x)
    ensures l != [] ==> l[0] in m
    ensures Loose(y, LinkedFirst(m, Spot(l, 0), x), [x] + l) && OnlyLinks(m, LinkedFirst(m, Spot(l, 0), x))
  {
    LinkFirstChain(m, l, x);
    LinksSlabOk(y, m, LinkedFirst(m, Spot(l, 0), x));
  }

  lemma Deleted(y: Layout, m: Slabs, l: seq<nat>, x: nat)
    requires Outside(y, m, l, x)
    ensures Loose(y, m - {x}, l)
    ensures m[x].avail == y.elem ==> SameLive(y, m, m - {x})
  {
    RemovedChain(m, l, x);
    var n := m - {x};
    forall z | z in n ensures SlabOk(y, n, z) {
      assert SlabOk(y, m, z);
    }
    assert SlabOk(y, m, x);
    if m[x].avail == y.elem {
      forall p: nat ensures IsLive(y, n, p) <==> IsLive(y, m, p) {
        if p / PAGE == x && IsObject(y, x, p) { AllObjectsListed(y, x, m[x].free, p); }
      }
    }
  }

  // ----- growing

  lemma NewSlabCount(m: Slabs, n: Slabs, x: nat)
    requires x !in m && n.Keys == m.Keys + {x}
    ensures |n| == |m| + 1
  {
    assert |n| == |n.Keys| && |m| == |m.Keys|;
  }

  lemma SameCount(m: Slabs, n: Slabs)
    requires n.Keys == m.Keys
    ensures |n| == |m|
  {
    assert |n| == |n.Keys| && |m| == |m.Keys|;
  }

  lemma NewOutside(y: Layout, m: Slabs, l: seq<nat>, x: nat, free: seq<nat>)
    requires Loose(y, m, l) && x !in m && FreshObjects(y, x, free)
    ensures Outside(y, m[x := NewSlab(free)], l, x) && SameLive(y, m, m[x := NewSlab(free)])
  {
    var n := m[x := NewSlab(free)];
    assert x !in l by { if x in l { Members(m, l, x); } }
    forall t | 0 <= t < |l| ensures Linked(n, l, t) {
      assert Linked(m, l, t);
    }
    forall z | z in n ensures SlabOk(y, n, z) {
      if z != x { assert SlabOk(y, m, z); }
    }
    forall p: nat ensures IsLive(y, n, p) <==> IsLive(y, m, p) {
      if p / PAGE == x && IsObject(y, x, p) { AllObjectsListed(y, x, free, p); }
    }
  }

  lemma GrowGood(y: Layout, m: Slabs, back: seq<nat>, x: nat, free: seq<nat>)
    requires Good(y, m, [], back) && x !in m && FreshObjects(y, x, free)
    ensures var m1 := m[x := NewSlab(free)];
            && (back != [] ==> back[0] in m1)
            && Good(y, LinkedFirst(m1, Spot(back, 0), x), [x], back)
            && SameLive(y, m, LinkedFirst(m1, Spot(back, 0), x))
  {
    var m1 := m[x := NewSlab(free)];
    assert [] + back == back;
    if back != [] { Members(m, back, back[0]); }
    NewOutside(y, m, back, x, free);
    PutFirst(y, m1, back, x);
    var n := LinkedFirst(m1, Spot(back, 0), x);
    LinksSameLive(y, m1, n);
    SameLiveTrans(y, m, m1, n);
    NewInOrder(y, m, m1, n, back, x, free);
  }

  lemma SameLiveTrans(y: Layout, m: Slabs, m1: Slabs, n: Slabs)
    requires SameLive(y, m, m1) && SameLive(y, m1, n)
    ensures SameLive(y, m, n)
  {
    forall p: nat ensures IsLive(y, n, p) <==> IsLive(y, m, p) {
      assert IsLive(y, n, p) <==> IsLive(y, m1, p);
    }
  }

  lemma NewInOrder(y: Layout, m: Slabs, m1: Slabs, n: Slabs, back: seq<nat>, x: nat, free: seq<nat>)
    requires Order(y, m, [], back) && x !in m && m1 == m[x := NewSlab(free)] && OnlyLinks(m1, n) && |free| > 0
    requires x !in back && forall z | z in back :: z in m
    ensures Order(y, n, [x], back)
  {
    assert SameObjects(m1, n, x);
    forall z | z in back ensures z in n && n[z].avail == 0 {
      assert SameObjects(m1, n, z);
    }
  }

  // ----- a slab that was full

  lemma FullMoves(y: Layout, m: Slabs, front: seq<nat>, back: seq<nat>, t: nat, n: Slabs)
    requires Order(y, m, front, back) && Distinct(front + back) && t < |back|
    requires forall z | z in m :: z in n && n[z].avail == if z == back[t] then 1 else m[z].avail
    ensures Order(y, n, front + [back[t]], Dropped(back, t))
  {
    var x, d := back[t], Dropped(back, t);
    Apart(front, back, x);
    DroppedAt(back, t, 0);
    assert forall z | z in d :: z in back;
    assert x in back;
    var k := front + [x];
    forall i | 0 < i < |k| && k[i] in n && y.elem >= 2 ensures n[k[i]].avail < y.elem {
      if i < |front| { assert k[i] == front[i] && k[i] in front; }
    }
  }

  lemma SplitDropped(front: seq<nat>, back: seq<nat>, t: nat)
    requires t < |back|
    ensures Dropped(front + back, |front| + t) == front + Dropped(back, t)
    ensures Inserted(front + Dropped(back, t), |front|, back[t]) == front + [back[t]] + Dropped(back, t)
    ensures t == 0 ==> front + [back[t]] + Dropped(back, t) == front + back
  {
    DroppedBehind(front, back, t);
    InsertedBehind(front, Dropped(back, t), back[t]);
    if t == 0 { assert back == [back[0]] + back[1..]; }
  }

  lemma DroppedBehind(front: seq<nat>, back: seq<nat>, t: nat)
    requires t < |back|
    ensures Dropped(front + back, |front| + t) == front + Dropped(back, t)
  {
    var l := front + back;
    assert l[..|front| + t] == front + back[..t];
    assert l[|front| + t + 1..] == back[t + 1..];
  }

  lemma InsertedBehind(front: seq<nat>, d: seq<nat>, x: nat)
    ensures Inserted(front + d, |front|, x) == front + [x] + d
  {
    assert (front + d)[..|front|] == front && (front + d)[|front|..] == d;
  }

  lemma BehindFront(y: Layout, m: Slabs, front: seq<nat>, back: seq<nat>, t: nat)
    requires 0 < t < |back| && front != [] && Outside(y, m, front + Dropped(back, t), back[t])
    ensures var c, x := front[|front| - 1], back[t];
            && c in m && m[c].next.Some? && m[c].next.value in m
            && Loose(y, LinkedAfter(m, c, x), front + [x] + Dropped(back, t)) && OnlyLinks(m, LinkedAfter(m, c, x))
  {
    var l := front + Dropped(back, t);
    assert l[|front| - 1] == front[|front| - 1];
    PutAfter(y, m, l, |front| - 1, back[t]);
    SplitDropped(front, back, t);
  }

  lemma BeforeBack(y: Layout, m: Slabs, back: seq<nat>, t: nat)
    requires 0 < t < |back| && Outside(y, m, [] + Dropped(back, t), back[t])
    ensures var x := back[t];
            && back[0] in m && Loose(y, LinkedFirst(m, Some(back[0]), x), [] + [x] + Dropped(back, t))
            && OnlyLinks(m, LinkedFirst(m, Some(back[0]), x))
  {
    var l := [] + Dropped(back, t);
    assert l[0] == back[0] && [] + [back[t]] + Dropped(back, t) == [back[t]] + l;
    PutFirst(y, m, l, back[t]);
  }

  // ----- a slab that became empty

  lemma EmptyLeaves(y: Layout, m: Slabs, front: seq<nat>, back: seq<nat>, t: nat, n: Slabs)
    requires Order(y, m, front, back) && Distinct(front + back) && 0 < t < |front|
    requires forall z | z in m && z != front[t] :: z in n && n[z].avail == m[z].avail
    ensures Order(y, n, Dropped(front, t), back)
  {
    var d := Dropped(front, t);
    Apart(front, back, front[t]);
    DroppedAt(front, t, 0);
    assert front[t] in front;
    assert forall z | z in d :: z in front && z != front[t];
    forall i | 0 < i < |d| && d[i] in n && y.elem >= 2 ensures n[d[i]].avail < y.elem {
      assert d[i] == front[if i < t then i else i + 1] && d[i] in d;
    }
  }

  lemma EmptyMoves(y: Layout, m: Slabs, front: seq<nat>, back: seq<nat>, t: nat, n: Slabs)
    requires Order(y, m, front, back) && Distinct(front + back) && 0 < t < |front|
    requires forall z | z in m && z != front[t] :: z in n && n[z].avail == m[z].avail
    requires front[t] in n && n[front[t]].avail > 0 && front[0] in m && m[front[0]].avail < y.elem
    ensures Order(y, n, [front[t]] + Dropped(front, t), back)
  {
    var d := Dropped(front, t);
    Apart(front, back, front[t]);
    DroppedAt(front, t, 0);
    assert front[t] in front;
    assert forall z | z in d :: z in front && z != front[t];
    var k := [front[t]] + d;
    forall i | 0 < i < |k| && k[i] in n && y.elem >= 2 ensures n[k[i]].avail < y.elem {
      assert k[i] == d[i - 1] == front[if i <= t then i - 1 else i] && k[i] in d;
    }
  }

  lemma FrontDropped(front: seq<nat>, back: seq<nat>, t: nat)
    requires t < |front|
    ensures Dropped(front + back, t) == Dropped(front, t) + back
    ensures 0 < t ==>
      Spot(Dropped(front, t), |front| - 2) == Spot(front, if t == |front| - 1 then t - 1 else |front| - 1)
  {
  }

  /** A slab that stays partly used stays where it is. */
  lemma PartStays(y: Layout, m: Slabs, front: seq<nat>, back: seq<nat>, t: nat, n: Slabs)
    requires Order(y, m, front, back) && Distinct(front + back) && t < |front|
    requires forall z | z in m :: z in n && (z != front[t] ==> n[z].avail == m[z].avail)
    requires front[t] in n && n[front[t]].avail > 0 && (t > 0 ==> n[front[t]].avail < y.elem)
    ensures Order(y, n, front, back)
  {
    Apart(front, back, front[t]);
    assert front[t] in front;
    forall i | 0 < i < |front| && front[i] in n && y.elem >= 2 ensures n[front[i]].avail < y.elem {
      assert front[i] in front;
    }
  }

  /** Where a slab with or without free objects stands in the list. */
  lemma FindIn(l: seq<nat>, x: nat) returns (t: nat)
    requires x in l
    ensures t < |l| && l[t] == x
  {
    t :| 0 <= t < |l| && l[t] == x;
  }

  /** A slab with free objects stands in front, a full one behind. */
  lemma InFront(y: Layout, m: Slabs, n: Slabs, front: seq<nat>, back: seq<nat>, x: nat)
    requires Loose(y, n, front + back) && Order(y, m, front, back) && x in m && x in n
    ensures if m[x].avail > 0 then x in front else x in back
    ensures Distinct(front + back)
  {
    assert x in front + back;
  }

  lemma LinksTwice(m: Slabs, n: Slabs, o: Slabs)
    requires OnlyLinks(m, n) && OnlyLinks(n, o)
    ensures OnlyLinks(m, o)
  {
    forall x: nat ensures SameObjects(m, o, x) {
      assert SameObjects(m, n, x) && SameObjects(n, o, x);
    }
  }

  lemma LinksKeep(y: Layout, m: Slabs, n: Slabs)
    requires OnlyLinks(m, n)
    ensures SameLive(y, m, n) && n.Keys == m.Keys && |n| == |m|
  {
    LinksSameLive(y, m, n);
    forall z: nat ensures z in n <==> z in m {
      assert SameObjects(m, n, z);
    }
    assert n.Keys == m.Keys;
    SameCount(m, n);
  }

  lemma SameAvail(m: Slabs, n: Slabs, o: Slabs, x: nat)
    requires OnlyLinks(n, o) && m.Keys == n.Keys
    requires forall z | z in m :: n[z].avail == if z == x then m[z].avail + 1 else m[z].avail
    ensures forall z | z in m :: z in o && o[z].avail == if z == x then m[z].avail + 1 else m[z].avail
  {
    forall z | z in m ensures z in o && o[z].avail == n[z].avail {
      assert SameObjects(n, o, z);
    }
  }

  /** A full slab has a full one before it unless it is the first full one. */
  lemma BackPrev(y: Layout, m: Slabs, n: Slabs, front: seq<nat>, back: seq<nat>, t: nat)
    requires Loose(y, n, front + back) && Order(y, m, front, back) && t < |back| && m.Keys == n.Keys
    requires forall z | z in m :: n[z].avail == if z == back[t] then m[z].avail + 1 else m[z].avail
    ensures back[t] in n && (n[back[t]].prev.Some? ==> n[back[t]].prev.value in n)
    ensures t > 0 <==> n[back[t]].prev.Some? && n[n[back[t]].prev.value].avail == 0
  {
    var l, k := front + back, |front| + t;
    assert l[k] == back[t] && Linked(n, l, k);
    if k > 0 {
      assert l[k - 1] in l && l[k - 1] != l[k];
      assert Linked(n, l, k - 1);
      if t > 0 { assert l[k - 1] == back[t - 1] && back[t - 1] in back; } else { assert l[k - 1] in front; }
    }
  }

  /** Another slab than x is empty. */
  predicate EmptyElsewhere(y: Layout, m: Slabs, x: nat) { exists z | z in m :: z != x && m[z].avail == y.elem }

  lemma SpareElsewhere(y: Layout, m: Slabs, p: nat)
    requires Fits(y) && forall z | z in m :: SlabOk(y, m, z)
    ensures OtherSpare(y, m, p) <==> EmptyElsewhere(y, m, p / PAGE)
  {
    forall z | z in m ensures Spare(y, m, z) <==> m[z].avail == y.elem {
      assert SlabOk(y, m, z);
      SpareMeansEmpty(y, m, z);
    }
  }

  /** Where slab t of those with free objects has given back its last object but one, only the first one can be
      empty. */
  lemma HeadIsTheEmpty(y: Layout, m: Slabs, front: seq<nat>, back: seq<nat>, t: nat)
    requires Order(y, m, front, back) && t < |front| && Distinct(front) && front[0] in m && front[t] in m
    requires m[front[t]].avail + 1 == y.elem
    requires forall z | z in m :: z in front + back
    ensures EmptyElsewhere(y, m, front[t]) <==> t > 0 && m[front[0]].avail == y.elem
  {
    assert front[t] in front && m[front[t]].avail > 0;
    assert front[0] in front;
    forall z | z in m && z != front[t] && m[z].avail == y.elem ensures z == front[0] {
      assert z in front + back && !(z in back);
      var k :| 0 <= k < |front| && front[k] == z;
    }
  }

  class Cache {
    const layout: Layout
    var curr: Option<nat>
    var head: Option<nat>
    var slabs: Slabs
    ghost var front: seq<nat>
    ghost var back: seq<nat>

    ghost predicate Valid()
      reads this
    {
      Good(layout, slabs, front, back) && head == Spot(front + back, 0) && curr == Spot(front, |front| - 1)
    }

    ghost predicate Live(p: nat)
      reads this
    {
      IsLive(layout, slabs, p)
    }

    twostate predicate Paid(quota: Quotas.Quota)
      reads this, quota
    {
      Quotas.Balance(quota.View()) == old(Quotas.Balance(quota.View())) + |old(slabs)| - |slabs|
    }

    constructor (bytes: nat, align: nat)
      requires align > 0 && LayoutFor(bytes, align).elem > 0
      ensures Valid() && layout == LayoutFor(bytes, align) && slabs == map[]
    {
      LayoutFits(bytes, align);
      layout := LayoutFor(bytes, align);
      curr, head, slabs := None, None, map[];
      front, back := [], [];
    }

    /** The loop of the Slab constructor: a stack of all objects, the one at the end of the page at the bottom. */
    method BuildFree(page: nat) returns (free: seq<nat>)
      requires Fits(layout)
      ensures FreshObjects(layout, page, free)
      ensures forall i | 0 <= i < |free| :: free[i] == Object(layout, page, layout.elem - 1 - i)
    {
      free := [];
      var j := 0;
      while j < layout.elem
        invariant 0 <= j <= layout.elem && |free| == j
        invariant forall i | 0 <= i < j :: free[i] == Object(layout, page, j - 1 - i)
      {
        ObjectInPage(layout, page, j);
        free := [Object(layout, page, j)] + free;
        j := j + 1;
      }
      forall a, b | 0 <= a < b < |free| ensures free[a] != free[b] {
        ObjectsApart(layout, page, layout.elem - 1 - b, layout.elem - 1 - a);
      }
      forall p | p in free ensures IsObject(layout, page, p) {
        var i :| 0 <= i < |free| && free[i] == p;
        var k: nat := layout.elem - 1 - i;
        assert k < layout.elem && p == Object(layout, page, k);
      }
    }

    /** Slab_cache::grow */
    method Grow(quota: Quotas.Quota)
      requires Valid() && curr.None?
      modifies this, quota
      ensures Valid() && curr.Some? && SameLive(layout, old(slabs), slabs) && Paid(quota)
      ensures |slabs| == |old(slabs)| + 1
    {
      ghost var bound := UnusedPage(slabs.Keys);
      assert bound !in slabs;
      var x: nat :| x !in slabs;
      quota.Alloc(1);
      var free := BuildFree(x);
      AddSlab(x, free);
    }

    method AddSlab(x: nat, free: seq<nat>)
      requires Valid() && curr.None? && x !in slabs && FreshObjects(layout, x, free)
      modifies this
      ensures Valid() && curr.Some? && SameLive(layout, old(slabs), slabs) && |slabs| == |old(slabs)| + 1
    {
      assert front == [];
      GrowGood(layout, slabs, back, x, free);
      assert head == Spot(back, 0) && Spot([x] + back, 0) == Some(x);
      slabs := LinkedFirst(slabs[x := NewSlab(free)], head, x);
      NewSlabCount(old(slabs), slabs, x);
      head, curr := Some(x), Some(x);
      front := [x];
    }

    /** Slab_cache::alloc: an object that was not live before. Both assertions of the code hold. */
    method Alloc(quota: Quotas.Quota) returns (p: nat)
      requires Valid()
      modifies this, quota
      ensures Valid() && Paid(quota)
      ensures !old(Live(p)) && forall q: nat :: Live(q) <==> old(Live(q)) || q == p
      ensures |slabs| == |old(slabs)| + if old(AllTaken(layout, slabs)) then 1 else 0
    {
      NoneLeft();
      if curr.None? { Grow(quota); }
      p := TakeObject();
    }

    lemma NoneLeft()
      requires Valid()
      ensures AllTaken(layout, slabs) <==> curr.None?
    {
      TakenMeansFull(layout, slabs);
      if front != [] { assert front[0] in front; }
      forall z | z in slabs ensures z in front || z in back { assert z in front + back; }
    }

    method TakeObject() returns (p: nat)
      requires Valid() && curr.Some?
      modifies this
      ensures Valid() && slabs.Keys == old(slabs).Keys && |slabs| == |old(slabs)|
      ensures !old(Live(p)) && forall q: nat :: Live(q) <==> old(Live(q)) || q == p
    {
      var x := curr.value;
      ghost var m := slabs;
      LastInFront(layout, slabs, front, back);
      assert slabs[x].avail != 0;
      assert slabs[x].next.None? || slabs[slabs[x].next.value].avail == 0;
      TakeGood(layout, slabs, front, back);
      TakeLive(layout, slabs, x);
      TakeLists(slabs, front, back);
      p := slabs[x].free[0];
      slabs := slabs[x := Popped(slabs[x])];
      if slabs[x].avail == 0 { curr := slabs[x].prev; }
      front, back := FrontAfter(m, front), BackAfter(m, front, back);
      SameCount(m, slabs);
    }

    /** Slab_cache::free of an object that is live. A slab is given up exactly when its last live object is given back
        while another slab has none either. */
    method Free(p: nat, quota: Quotas.Quota)
      requires Valid() && Live(p)
      modifies this, quota
      ensures Valid() && Paid(quota)
      ensures forall q: nat :: Live(q) <==> old(Live(q)) && q != p
      ensures |slabs| == |old(slabs)| -
              if layout.elem >= 2 && old(LastLive(layout, slabs, p) && OtherSpare(layout, slabs, p)) then 1 else 0
    {
      LastMeansEmptied(layout, slabs, p) by { assert SlabOk(layout, slabs, p / PAGE); }
      SpareElsewhere(layout, slabs, p);
      var x := p / PAGE;
      var wasFull := slabs[x].avail == 0;
      ghost var m := slabs;
      PutLive(layout, slabs, p) by { assert SlabOk(layout, slabs, x); }
      PutLoose(layout, slabs, front + back, p);
      LiveMeansRoom(layout, slabs, p) by { assert SlabOk(layout, slabs, x); }
      slabs := slabs[x := Pushed(slabs[x], p)];
      SameCount(m, slabs);
      if wasFull {
        Requeue(x, m);
      } else if slabs[x].avail == layout.elem {
        Retire(x, m, quota);
      } else {
        StayPartial(x, m);
      }
    }

    /** While an object of slab x has been given back, m being the slabs before, and the order not been mended yet. */
    ghost predicate Pending(x: nat, m: Slabs)
      reads this
    {
      && Loose(layout, slabs, front + back) && Order(layout, m, front, back) && x in slabs
      && head == Spot(front + back, 0) && curr == Spot(front, |front| - 1)
      && m.Keys == slabs.Keys && (forall z | z in m :: slabs[z].avail == if z == x then m[z].avail + 1 else m[z].avail)
    }

    lemma StayPartial(x: nat, m: Slabs)
      requires Pending(x, m) && m[x].avail > 0 && slabs[x].avail < layout.elem
      ensures Valid()
    {
      InFront(layout, m, slabs, front, back, x);
      var t := FindIn(front, x);
      PartStays(layout, m, front, back, t, slabs);
    }

    /** A slab that was full moves behind the last slab with free objects. */
    method Requeue(x: nat, ghost m: Slabs)
      requires Pending(x, m) && m[x].avail == 0
      modifies this
      ensures Valid() && SameLive(layout, old(slabs), slabs) && |slabs| == |old(slabs)|
    {
      InFront(layout, m, slabs, front, back, x);
      ghost var t := FindIn(back, x);
      BackPrev(layout, m, slabs, front, back, t);
      if slabs[x].prev.Some? && slabs[slabs[x].prev.value].avail == 0 {
        MoveBehind(x, m, t);
      } else {
        SplitDropped(front, back, 0);
      }
      LinksKeep(layout, old(slabs), slabs);
      SameAvail(m, old(slabs), slabs, x);
      FullMoves(layout, m, front, back, t, slabs);
      curr := Some(x);
      front, back := front + [x], Dropped(back, t);
    }

    method MoveBehind(x: nat, ghost m: Slabs, ghost t: nat)
      requires Pending(x, m) && 0 < t < |back| && back[t] == x
      modifies this`slabs, this`head
      ensures Loose(layout, slabs, front + [x] + Dropped(back, t)) && OnlyLinks(old(slabs), slabs)
      ensures head == Spot(front + [x] + Dropped(back, t), 0)
    {
      Detach(x, m, t);
      ghost var mid := slabs;
      if curr.Some? {
        BehindFront(layout, slabs, front, back, t);
        slabs := LinkedAfter(slabs, curr.value, x);
      } else {
        assert front == [];
        BeforeBack(layout, slabs, back, t);
        slabs := LinkedFirst(slabs, head, x);
        head := Some(x);
      }
      LinksTwice(old(slabs), mid, slabs);
    }

    method Detach(x: nat, ghost m: Slabs, ghost t: nat)
      requires Pending(x, m) && 0 < t < |back| && back[t] == x
      modifies this`slabs
      ensures Outside(layout, slabs, front + Dropped(back, t), x) && OnlyLinks(old(slabs), slabs)
    {
      assert (front + back)[|front| + t] == x;
      TakenOut(layout, slabs, front + back, |front| + t);
      SplitDropped(front, back, t);
      slabs := Unlinked(slabs, x);
    }

    /** Slab x, number t of those with free objects, has been taken off the list after it became empty. */
    ghost predicate OffList(x: nat, m: Slabs, t: nat)
      reads this
    {
      && 0 < t < |front| && front[t] == x && Distinct(front + back)
      && Outside(layout, slabs, Dropped(front, t) + back, x) && Order(layout, m, front, back)
      && head == Some(front[0]) && curr == Spot(Dropped(front, t), |front| - 2) && slabs[x].avail == layout.elem
      && m.Keys == slabs.Keys && (forall z | z in m :: slabs[z].avail == if z == x then m[z].avail + 1 else m[z].avail)
      && slabs[x].prev == Some(front[t - 1])
    }

    /** Where a slab that became empty is, and whether there is another one. */
    lemma Position(x: nat, m: Slabs) returns (t: nat)
      requires Pending(x, m) && m[x].avail > 0 && slabs[x].avail == layout.elem
      ensures t < |front| && front[t] == x && Distinct(front + back) && front[0] in m
      ensures slabs[x].prev.None? <==> t == 0
      ensures EmptyElsewhere(layout, m, x) <==> t > 0 && m[front[0]].avail == layout.elem
    {
      InFront(layout, m, slabs, front, back, x);
      t := FindIn(front, x);
      Apart(front, back, x);
      assert front[0] in front && front[0] in m;
      HeadIsTheEmpty(layout, m, front, back, t);
      assert (front + back)[t] == x && Linked(slabs, front + back, t);
    }

    /** A slab that became empty is given up if there is an empty slab already; otherwise it becomes the first one. */
    method Retire(x: nat, ghost m: Slabs, quota: Quotas.Quota)
      requires Pending(x, m) && m[x].avail > 0 && slabs[x].avail == layout.elem
      modifies this, quota
      ensures Valid() && SameLive(layout, old(slabs), slabs) && Paid(quota)
      ensures |slabs| == |old(slabs)| - if EmptyElsewhere(layout, m, x) then 1 else 0
    {
      ghost var t := Position(x, m);
      if slabs[x].prev.None? {
        PartStays(layout, m, front, back, t, slabs);
        return;
      }
      TakeOff(x, m, t);
      assert front[0] in front && front[t - 1] in front && (front + back)[0] != (front + back)[t];
      assert SlabOk(layout, slabs, front[0]);
      if slabs[slabs[x].prev.value].avail == layout.elem || (head.Some? && slabs[head.value].avail == layout.elem) {
        Destroy(x, m, t, quota);
      } else {
        BecomeFirst(x, m, t);
      }
    }

    method TakeOff(x: nat, ghost m: Slabs, ghost t: nat)
      requires Pending(x, m) && slabs[x].avail == layout.elem && 0 < t < |front| && front[t] == x
      modifies this`slabs, this`curr
      ensures OffList(x, m, t) && SameLive(layout, old(slabs), slabs) && |slabs| == |old(slabs)|
    {
      assert (front + back)[t] == x && (front + back)[t - 1] == front[t - 1];
      TakenOut(layout, slabs, front + back, t);
      FrontDropped(front, back, t);
      if curr == Some(x) { curr := slabs[x].prev; }
      slabs := Unlinked(slabs, x);
      LinksKeep(layout, old(slabs), slabs);
      SameAvail(m, old(slabs), slabs, x);
    }

    method Destroy(x: nat, ghost m: Slabs, ghost t: nat, quota: Quotas.Quota)
      requires OffList(x, m, t)
      modifies this, quota
      ensures Valid() && SameLive(layout, old(slabs), slabs) && Paid(quota) && |slabs| == |old(slabs)| - 1
    {
      assert head != Some(x);
      Deleted(layout, slabs, Dropped(front, t) + back, x);
      slabs := slabs - {x};
      quota.Free(1);
      EmptyLeaves(layout, m, front, back, t, slabs);
      front := Dropped(front, t);
    }

    method BecomeFirst(x: nat, ghost m: Slabs, ghost t: nat)
      requires OffList(x, m, t) && front[0] in m && m[front[0]].avail < layout.elem
      modifies this
      ensures Valid() && SameLive(layout, old(slabs), slabs) && |slabs| == |old(slabs)|
    {
      ghost var d := Dropped(front, t);
      assert (d + back)[0] == front[0] && [x] + (d + back) == [x] + d + back;
      PutFirst(layout, slabs, d + back, x);
      slabs := LinkedFirst(slabs, head, x);
      head := Some(x);
      LinksKeep(layout, old(slabs), slabs);
      SameAvail(m, old(slabs), slabs, x);
      EmptyMoves(layout, m, front, back, t, slabs);
      front := [x] + d;
    }
  }
}
