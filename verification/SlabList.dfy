/** The doubly linked list of slabs that src/slab.cpp threads through the slab headers. */
module SlabList {
  import opened Options
  import opened Lists

  /** A slab header: free objects, links, and the stack of free objects (first one on top). */
  datatype Slab = Slab(avail: nat, prev: Option<nat>, next: Option<nat>, free: seq<nat>)

  /** Slabs by page. */
  type Slabs = map<nat, Slab>

  function Spot(l: seq<nat>, t: int): Option<nat> { if 0 <= t < |l| then Some(l[t]) else None }

  predicate Linked(m: Slabs, l: seq<nat>, t: int)
    requires 0 <= t < |l|
  {
    l[t] in m && m[l[t]].prev == Spot(l, t - 1) && m[l[t]].next == Spot(l, t + 1)
  }

  /** The links run through exactly the slabs of l, forwards and backwards. */
  predicate Chain(m: Slabs, l: seq<nat>) { Distinct(l) && forall t | 0 <= t < |l| :: Linked(m, l, t) }

  /** Slab x holds the same objects in both. */
  predicate SameObjects(m: Slabs, n: Slabs, x: nat) {
    (x in n <==> x in m) && (x in m ==> n[x].avail == m[x].avail && n[x].free == m[x].free)
  }

  ghost predicate OnlyLinks(m: Slabs, n: Slabs) { forall x: nat :: SameObjects(m, n, x) }

  lemma DroppedAt(l: seq<nat>, t: nat, s: int)
    requires t < |l| && Distinct(l)
    ensures Spot(Dropped(l, t), s) == if s < t then Spot(l, s) else Spot(l, s + 1)
    ensures Distinct(Dropped(l, t)) && l[t] !in Dropped(l, t)
  {
    var d := Dropped(l, t);
    assert forall a | 0 <= a < |d| :: d[a] == l[if a < t then a else a + 1];
  }

  // ----- removal

  function SetNext(m: Slabs, x: nat, v: Option<nat>): Slabs
    requires x in m
  {
    m[x := m[x].(next := v)]
  }

  function SetPrev(m: Slabs, x: nat, v: Option<nat>): Slabs
    requires x in m
  {
    m[x := m[x].(prev := v)]
  }

  /** `slab->prev->next = slab->next; if (slab->next) slab->next->prev = slab->prev` */
  function Unlinked(m: Slabs, x: nat): Slabs
    requires x in m && m[x].prev.Some? && m[x].prev.value in m && (m[x].next.Some? ==> m[x].next.value in m)
  {
    var n := SetNext(m, m[x].prev.value, m[x].next);
    if m[x].next.Some? then SetPrev(n, m[x].next.value, m[x].prev) else n
  }

  lemma UnlinkReady(m: Slabs, l: seq<nat>, t: nat)
    requires Chain(m, l) && 0 < t < |l|
    ensures l[t] in m && m[l[t]].prev == Some(l[t - 1]) && l[t - 1] in m && m[l[t]].next == Spot(l, t + 1)
    ensures m[l[t]].next.Some? ==> m[l[t]].next.value in m
  {
    assert Linked(m, l, t) && Linked(m, l, t - 1);
    if t + 1 < |l| { assert Linked(m, l, t + 1); }
  }

  lemma UnlinkLinked(m: Slabs, l: seq<nat>, t: nat, s: nat)
    requires Chain(m, l) && 0 < t < |l| && s < |l| - 1
    requires l[t] in m && m[l[t]].prev == Some(l[t - 1]) && l[t - 1] in m && m[l[t]].next == Spot(l, t + 1)
    requires m[l[t]].next.Some? ==> m[l[t]].next.value in m
    ensures Linked(Unlinked(m, l[t]), Dropped(l, t), s)
  {
    var d := Dropped(l, t);
    DroppedAt(l, t, s - 1);
    DroppedAt(l, t, s);
    DroppedAt(l, t, s + 1);
    var o := if s < t then s else s + 1;
    assert d[s] == l[o];
    assert Linked(m, l, o);
  }

  lemma UnlinkChain(m: Slabs, l: seq<nat>, t: nat)
    requires Chain(m, l) && 0 < t < |l|
    requires l[t] in m && m[l[t]].prev == Some(l[t - 1]) && l[t - 1] in m && m[l[t]].next == Spot(l, t + 1)
    requires m[l[t]].next.Some? ==> m[l[t]].next.value in m
    ensures Chain(Unlinked(m, l[t]), Dropped(l, t)) && OnlyLinks(m, Unlinked(m, l[t]))
  {
    DroppedAt(l, t, 0);
    var n, d := Unlinked(m, l[t]), Dropped(l, t);
    forall s: nat | s < |l| - 1 ensures Linked(n, d, s) {
      UnlinkLinked(m, l, t, s);
    }
  }

  // ----- insertion

  /** `slab->prev = curr; slab->next = curr->next; curr->next = curr->next->prev = slab` */
  function LinkedAfter(m: Slabs, c: nat, x: nat): Slabs
    requires c in m && x in m && m[c].next.Some? && m[c].next.value in m
  {
    var f := m[c].next.value;
    var n := m[x := m[x].(prev := Some(c), next := Some(f))];
    SetNext(SetPrev(n, f, Some(x)), c, Some(x))
  }

  function Inserted(l: seq<nat>, t: nat, x: nat): seq<nat>
    requires t <= |l|
  {
    l[..t] + [x] + l[t..]
  }

  lemma InsertedAt(l: seq<nat>, t: nat, x: nat, s: int)
    requires t <= |l| && Distinct(l) && x !in l
    ensures Spot(Inserted(l, t, x), s) == if s < t then Spot(l, s) else if s == t then Some(x) else Spot(l, s - 1)
    ensures Distinct(Inserted(l, t, x))
  {
    var d := Inserted(l, t, x);
    assert forall a | 0 <= a < |d| :: d[a] == if a < t then l[a] else if a == t then x else l[a - 1];
  }

  lemma LinkAfterLinked(m: Slabs, l: seq<nat>, t: nat, x: nat, s: nat)
    requires Chain(m, l) && t + 1 < |l| && x in m && x !in l && s <= |l|
    requires l[t] in m && m[l[t]].next == Some(l[t + 1]) && l[t + 1] in m
    ensures Linked(LinkedAfter(m, l[t], x), Inserted(l, t + 1, x), s)
  {
    InsertedAt(l, t + 1, x, s - 1);
    InsertedAt(l, t + 1, x, s);
    InsertedAt(l, t + 1, x, s + 1);
    if s != t + 1 {
      var o := if s <= t then s else s - 1;
      assert Inserted(l, t + 1, x)[s] == l[o];
      assert Linked(m, l, o);
    }
  }

  lemma LinkAfterChain(m: Slabs, l: seq<nat>, t: nat, x: nat)
    requires Chain(m, l) && t + 1 < |l| && x in m && x !in l
    ensures l[t] in m && m[l[t]].next == Some(l[t + 1]) && l[t + 1] in m
    ensures Chain(LinkedAfter(m, l[t], x), Inserted(l, t + 1, x)) && OnlyLinks(m, LinkedAfter(m, l[t], x))
  {
    assert Linked(m, l, t) && Linked(m, l, t + 1);
    InsertedAt(l, t + 1, x, 0);
    var n, d := LinkedAfter(m, l[t], x), Inserted(l, t + 1, x);
    forall s: nat | s <= |l| ensures Linked(n, d, s) {
      LinkAfterLinked(m, l, t, x, s);
    }
  }

  /** `slab->prev = nullptr; slab->next = head; head->prev = slab` */
  function LinkedFirst(m: Slabs, h: Option<nat>, x: nat): Slabs
    requires x in m && (h.Some? ==> h.value in m)
  {
    var n := m[x := m[x].(prev := None, next := h)];
    if h.Some? then SetPrev(n, h.value, Some(x)) else n
  }

  lemma LinkFirstChain(m: Slabs, l: seq<nat>, x: nat)
    requires Chain(m, l) && x in m && x !in l
    ensures l != [] ==> l[0] in m
    ensures Chain(LinkedFirst(m, Spot(l, 0), x), [x] + l) && OnlyLinks(m, LinkedFirst(m, Spot(l, 0), x))
  {
    if l != [] { assert Linked(m, l, 0); }
    var n, d := LinkedFirst(m, Spot(l, 0), x), [x] + l;
    assert d == Inserted(l, 0, x);
    forall s: nat | s <= |l| ensures Linked(n, d, s) {
      InsertedAt(l, 0, x, s - 1);
      InsertedAt(l, 0, x, s);
      InsertedAt(l, 0, x, s + 1);
      if s > 0 { assert d[s] == l[s - 1] && Linked(m, l, s - 1); }
    }
    InsertedAt(l, 0, x, 0);
  }

  /** Changing the objects of a slab keeps the links. */
  lemma ObjectsChain(m: Slabs, l: seq<nat>, x: nat, s: Slab)
    requires Chain(m, l) && x in m && s.prev == m[x].prev && s.next == m[x].next
    ensures Chain(m[x := s], l)
  {
    var n := m[x := s];
    forall t | 0 <= t < |l| ensures Linked(n, l, t) {
      assert Linked(m, l, t);
    }
  }

  lemma RemovedChain(m: Slabs, l: seq<nat>, x: nat)
    requires Chain(m, l) && x !in l
    ensures Chain(m - {x}, l)
  {
    var n := m - {x};
    forall t | 0 <= t < |l| ensures Linked(n, l, t) {
      assert Linked(m, l, t);
    }
  }
}
