/** The block headers of the buddy allocator and the circular doubly linked lists threaded through them
    (include/buddy.hpp, src/buddy.cpp). */
module FreeLists {
  import opened Lists

  /** A pointer to a list head or to the header of the block at page index i. */
  datatype Ref = Head(k: nat) | At(i: int)

  datatype Tag = Used | Free

  datatype Header = Header(prev: Ref, next: Ref, ord: nat, tag: Tag)

  /** The header storage: `index` holds the headers of pages from `min` on, `head` the list heads. */
  datatype Mem = Mem(min: int, index: seq<Header>, head: seq<Header>)

  function Blank(): Header { Header(Head(0), Head(0), 0, Used) }

  predicate Has(m: Mem, r: Ref) {
    if r.Head? then r.k < |m.head| else m.min <= r.i < m.min + |m.index|
  }

  function Get(m: Mem, r: Ref): Header {
    if !Has(m, r) then Blank() else if r.Head? then m.head[r.k] else m.index[r.i - m.min]
  }

  function Put(m: Mem, r: Ref, h: Header): Mem
    requires Has(m, r)
  {
    if r.Head? then m.(head := m.head[r.k := h]) else m.(index := m.index[r.i - m.min := h])
  }

  function SetNext(m: Mem, r: Ref, v: Ref): Mem
    requires Has(m, r)
  {
    Put(m, r, Get(m, r).(next := v))
  }

  function SetPrev(m: Mem, r: Ref, v: Ref): Mem
    requires Has(m, r)
  {
    Put(m, r, Get(m, r).(prev := v))
  }

  function SetTag(m: Mem, i: int, ord: nat, tag: Tag): Mem
    requires Has(m, At(i))
  {
    Put(m, At(i), Get(m, At(i)).(ord := ord, tag := tag))
  }

  lemma PutFacts(m: Mem, r: Ref, h: Header)
    requires Has(m, r)
    ensures forall x :: Has(Put(m, r, h), x) <==> Has(m, x)
    ensures forall x :: Get(Put(m, r, h), x) == if x == r then h else Get(m, x)
  {
  }

  // ----- lists

  /** Element t of list k, with its head in front and behind. */
  function Spot(k: nat, l: seq<int>, t: int): Ref { if 0 <= t < |l| then At(l[t]) else Head(k) }

  predicate Linked(m: Mem, k: nat, l: seq<int>, t: int) {
    Get(m, Spot(k, l, t - 1)).next == Spot(k, l, t) && Get(m, Spot(k, l, t)).prev == Spot(k, l, t - 1)
  }

  /** The links from head k run through exactly the blocks of l, forwards and backwards. */
  predicate Chain(m: Mem, k: nat, l: seq<int>) {
    && Has(m, Head(k)) && (forall x | x in l :: Has(m, At(x))) && Distinct(l)
    && (forall t | 0 <= t <= |l| :: Linked(m, k, l, t))
  }

  predicate SameLinks(m: Mem, n: Mem, r: Ref) {
    (Has(n, r) <==> Has(m, r)) && Get(n, r).prev == Get(m, r).prev && Get(n, r).next == Get(m, r).next
  }

  predicate SameTags(m: Mem, n: Mem, r: Ref) { Get(n, r).ord == Get(m, r).ord && Get(n, r).tag == Get(m, r).tag }

  /** Only list k was touched. */
  ghost predicate OnlyList(m: Mem, n: Mem, k: nat, l: seq<int>) {
    && n.min == m.min && |n.index| == |m.index| && |n.head| == |m.head|
    && (forall r: Ref | r != Head(k) && (r.At? ==> r.i !in l) :: SameLinks(m, n, r))
  }

  lemma ChainFrame(m: Mem, n: Mem, k: nat, l: seq<int>)
    requires Chain(m, k, l) && SameLinks(m, n, Head(k)) && forall x | x in l :: SameLinks(m, n, At(x))
    ensures Chain(n, k, l)
  {
    forall t | 0 <= t <= |l| ensures Linked(n, k, l, t) {
      assert Linked(m, k, l, t);
    }
  }

  /** `b->prev->next = b->next; b->next->prev = b->prev` */
  function Dequeued(m: Mem, x: int): Mem
    requires Has(m, At(x)) && Has(m, Get(m, At(x)).prev) && Has(m, Get(m, At(x)).next)
  {
    var h := Get(m, At(x));
    SetPrev(SetNext(m, h.prev, h.next), h.next, h.prev)
  }

  lemma DequeueReady(m: Mem, k: nat, l: seq<int>, t: nat)
    requires Chain(m, k, l) && t < |l|
    ensures Has(m, At(l[t])) && Get(m, At(l[t])).prev == Spot(k, l, t - 1) && Get(m, At(l[t])).next == Spot(k, l, t + 1)
    ensures Has(m, Spot(k, l, t - 1)) && Has(m, Spot(k, l, t + 1))
  {
    assert Linked(m, k, l, t) && Linked(m, k, l, t + 1);
    assert l[t] in l && (t > 0 ==> l[t - 1] in l) && (t + 1 < |l| ==> l[t + 1] in l);
  }

  lemma DequeueGet(m: Mem, k: nat, l: seq<int>, t: nat, r: Ref)
    requires Chain(m, k, l) && t < |l| && Has(m, At(l[t]))
    requires Has(m, Get(m, At(l[t])).prev) && Has(m, Get(m, At(l[t])).next)
    ensures var n := Dequeued(m, l[t]);
            && (Has(n, r) <==> Has(m, r)) && SameTags(m, n, r)
            && Get(n, r).next == (if r == Spot(k, l, t - 1) then Spot(k, l, t + 1) else Get(m, r).next)
            && Get(n, r).prev == (if r == Spot(k, l, t + 1) then Spot(k, l, t - 1) else Get(m, r).prev)
  {
    DequeueReady(m, k, l, t);
    var p, n := Spot(k, l, t - 1), Spot(k, l, t + 1);
    PutFacts(m, p, Get(m, p).(next := n));
    var m1 := SetNext(m, p, n);
    PutFacts(m1, n, Get(m1, n).(prev := p));
  }

  lemma SpotDropped(k: nat, l: seq<int>, t: nat, s: int)
    requires t < |l| && -1 <= s < |l|
    ensures Spot(k, Dropped(l, t), s) == if s < t then Spot(k, l, s) else Spot(k, l, s + 1)
  {
  }

  lemma SpotsDiffer(k: nat, l: seq<int>, a: int, b: int)
    requires Distinct(l) && -1 <= a < b <= |l| && !(a == -1 && b == |l|)
    ensures Spot(k, l, a) != Spot(k, l, b)
  {
  }

  lemma DequeueChain(m: Mem, k: nat, l: seq<int>, t: nat)
    requires Chain(m, k, l) && t < |l| && Has(m, At(l[t]))
    requires Has(m, Get(m, At(l[t])).prev) && Has(m, Get(m, At(l[t])).next)
    ensures Chain(Dequeued(m, l[t]), k, Dropped(l, t)) && OnlyList(m, Dequeued(m, l[t]), k, l)
    ensures forall r :: SameTags(m, Dequeued(m, l[t]), r)
  {
    var n, d := Dequeued(m, l[t]), Dropped(l, t);
    forall r ensures (Has(n, r) <==> Has(m, r)) && SameTags(m, n, r)
             ensures r != Head(k) && (r.At? ==> r.i !in l) ==> SameLinks(m, n, r) {
      DequeueGet(m, k, l, t, r);
    }
    forall s | 0 <= s <= |d| ensures Linked(n, k, d, s) {
      DequeueLinked(m, k, l, t, s);
    }
  }

  lemma DequeueLinked(m: Mem, k: nat, l: seq<int>, t: nat, s: nat)
    requires Chain(m, k, l) && t < |l| && s < |l| && Has(m, At(l[t]))
    requires Has(m, Get(m, At(l[t])).prev) && Has(m, Get(m, At(l[t])).next)
    ensures Linked(Dequeued(m, l[t]), k, Dropped(l, t), s)
  {
    var d := Dropped(l, t);
    SpotDropped(k, l, t, s - 1);
    SpotDropped(k, l, t, s);
    DequeueGet(m, k, l, t, Spot(k, d, s - 1));
    DequeueGet(m, k, l, t, Spot(k, d, s));
    if s < t {
      assert Linked(m, k, l, s);
      SpotsDiffer(k, l, s - 1, t - 1);
      SpotsDiffer(k, l, s, t + 1);
    } else if s > t {
      assert Linked(m, k, l, s + 1);
      SpotsDiffer(k, l, t - 1, s);
      SpotsDiffer(k, l, t + 1, s + 1);
    }
  }

  /** `b->prev = h; b->next = h->next; b->next->prev = h->next = b` */
  function Enqueued(m: Mem, k: nat, x: int): Mem
    requires Has(m, Head(k)) && Has(m, At(x)) && Has(m, Get(m, Head(k)).next)
  {
    var n := Get(m, Head(k)).next;
    var m1 := SetNext(SetPrev(m, At(x), Head(k)), At(x), n);
    SetNext(SetPrev(m1, n, At(x)), Head(k), At(x))
  }

  lemma EnqueueReady(m: Mem, k: nat, l: seq<int>)
    requires Chain(m, k, l)
    ensures Get(m, Head(k)).next == Spot(k, l, 0) && Has(m, Spot(k, l, 0))
  {
    assert Linked(m, k, l, 0);
  }

  lemma EnqueueGet(m: Mem, k: nat, l: seq<int>, x: int, r: Ref)
    requires Chain(m, k, l) && Has(m, At(x)) && x !in l && Has(m, Get(m, Head(k)).next)
    ensures var n := Enqueued(m, k, x);
            && (Has(n, r) <==> Has(m, r)) && SameTags(m, n, r)
            && Get(n, r).next == (if r == Head(k) then At(x) else if r == At(x) then Spot(k, l, 0) else Get(m, r).next)
            && Get(n, r).prev == (if r == At(x) then Head(k) else if r == Spot(k, l, 0) then At(x) else Get(m, r).prev)
  {
    EnqueueReady(m, k, l);
    var n := Spot(k, l, 0);
    var m1 := SetPrev(m, At(x), Head(k));
    PutFacts(m, At(x), Get(m, At(x)).(prev := Head(k)));
    var m2 := SetNext(m1, At(x), n);
    PutFacts(m1, At(x), Get(m1, At(x)).(next := n));
    var m3 := SetPrev(m2, n, At(x));
    PutFacts(m2, n, Get(m2, n).(prev := At(x)));
    PutFacts(m3, Head(k), Get(m3, Head(k)).(next := At(x)));
  }

  lemma EnqueueChain(m: Mem, k: nat, l: seq<int>, x: int)
    requires Chain(m, k, l) && Has(m, At(x)) && x !in l && Has(m, Get(m, Head(k)).next)
    ensures Chain(Enqueued(m, k, x), k, [x] + l) && OnlyList(m, Enqueued(m, k, x), k, [x] + l)
    ensures forall r :: SameTags(m, Enqueued(m, k, x), r)
  {
    var n, e := Enqueued(m, k, x), [x] + l;
    forall r ensures (Has(n, r) <==> Has(m, r)) && SameTags(m, n, r)
             ensures r != Head(k) && (r.At? ==> r.i !in e) ==> SameLinks(m, n, r) {
      EnqueueGet(m, k, l, x, r);
      if r.At? && r.i !in e { assert x in e && forall y :: y in l ==> y in e; }
    }
    forall s | 0 <= s <= |e| ensures Linked(n, k, e, s) {
      EnqueueLinked(m, k, l, x, s);
    }
    EnqueueDistinct(l, x);
  }

  lemma EnqueueDistinct(l: seq<int>, x: int)
    requires Distinct(l) && x !in l
    ensures Distinct([x] + l)
  {
  }

  lemma EnqueueLinked(m: Mem, k: nat, l: seq<int>, x: int, s: nat)
    requires Chain(m, k, l) && Has(m, At(x)) && x !in l && Has(m, Get(m, Head(k)).next) && s <= |l| + 1
    ensures Linked(Enqueued(m, k, x), k, [x] + l, s)
  {
    var e := [x] + l;
    EnqueueGet(m, k, l, x, Spot(k, e, s - 1));
    EnqueueGet(m, k, l, x, Spot(k, e, s));
    if s > 1 {
      assert Linked(m, k, l, s - 1);
      assert Spot(k, e, s - 1) == Spot(k, l, s - 2) && Spot(k, e, s) == Spot(k, l, s - 1);
      SpotsDiffer(k, l, 0, s - 1);
    }
  }

  /** `b->prev = b->next = h; h->next = h->prev = b`, which forgets the old list. */
  function Restarted(m: Mem, k: nat, x: int): Mem
    requires Has(m, Head(k)) && Has(m, At(x))
  {
    var m1 := SetNext(SetPrev(m, At(x), Head(k)), At(x), Head(k));
    SetNext(SetPrev(m1, Head(k), At(x)), Head(k), At(x))
  }

  lemma RestartChain(m: Mem, k: nat, x: int)
    requires Has(m, Head(k)) && Has(m, At(x))
    ensures Chain(Restarted(m, k, x), k, [x]) && OnlyList(m, Restarted(m, k, x), k, [x])
    ensures forall r :: SameTags(m, Restarted(m, k, x), r)
  {
    var n := Restarted(m, k, x);
    var m1 := SetPrev(m, At(x), Head(k));
    PutFacts(m, At(x), Get(m, At(x)).(prev := Head(k)));
    var m2 := SetNext(m1, At(x), Head(k));
    PutFacts(m1, At(x), Get(m1, At(x)).(next := Head(k)));
    var m3 := SetPrev(m2, Head(k), At(x));
    PutFacts(m2, Head(k), Get(m2, Head(k)).(prev := At(x)));
    PutFacts(m3, Head(k), Get(m3, Head(k)).(next := At(x)));
    assert x in [x];
    assert Linked(n, k, [x], 0) && Linked(n, k, [x], 1);
  }

  lemma SetTagChain(m: Mem, i: int, ord: nat, tag: Tag, k: nat, l: seq<int>)
    requires Has(m, At(i)) && Chain(m, k, l)
    ensures Chain(SetTag(m, i, ord, tag), k, l)
  {
    PutFacts(m, At(i), Get(m, At(i)).(ord := ord, tag := tag));
    ChainFrame(m, SetTag(m, i, ord, tag), k, l);
  }
}
