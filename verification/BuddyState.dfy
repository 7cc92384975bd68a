/** What the headers, the free lists and the partition of a buddy pool have to do with each other, and how the steps of
    Buddy::_alloc and Buddy::_free keep it. */
module BuddyState {
  import opened Lists
  import opened Bits
  import opened Blocks
  import opened FreeLists

  predicate Tagged(m: Mem, part: Part, i: int) {
    i in part && Get(m, At(i)).ord == part[i].ord && (Get(m, At(i)).tag == Free <==> part[i].free)
  }

  /** List k holds exactly the free blocks of order k. */
  ghost predicate Files(part: Part, k: nat, l: seq<int>) { forall i :: i in l <==> IsFree(part, i, k) }

  predicate Sized(pool: Pool, m: Mem) {
    m.min == pool.min && pool.min + |m.index| == pool.max && |m.head| == pool.order
  }

  ghost predicate Filed(m: Mem, part: Part, k: nat, l: seq<int>) { Chain(m, k, l) && Files(part, k, l) }

  /** Headers of live blocks are right, except for the block that is being worked on; headers inside blocks are left
      unconstrained. */
  ghost predicate State(pool: Pool, m: Mem, part: Part, lists: seq<seq<int>>, open: set<int>) {
    && Sized(pool, m) && Partition(pool, part) && Coalesced(pool, part)
    && (forall i | i in part && i !in open :: Tagged(m, part, i))
    && |lists| == pool.order && (forall k: nat | k < pool.order :: Filed(m, part, k, lists[k]))
  }

  lemma BlockHasHeader(pool: Pool, m: Mem, part: Part, i: int)
    requires Sized(pool, m) && Partition(pool, part) && i in part
    ensures Has(m, At(i)) && part[i].ord < pool.order
  {
    assert Fits(pool, i, part[i].ord);
  }

  lemma InitialState(pool: Pool, m: Mem, lists: seq<seq<int>>)
    requires pool.order > 0 && Sized(pool, m) && |lists| == pool.order
    requires forall k: nat | k < pool.order :: lists[k] == [] && m.head[k].next == Head(k) && m.head[k].prev == Head(k)
    requires forall i | 0 <= i < |m.index| :: m.index[i] == Blank()
    ensures State(pool, m, SinglePages(pool), lists, {})
    ensures FreePages(pool, SinglePages(pool)) == {} && UsedBlocks(SinglePages(pool)).Keys == Pages(pool.min, pool.max)
  {
    SinglePagesOk(pool);
    forall k: nat | k < pool.order ensures Filed(m, SinglePages(pool), k, lists[k]) {
      assert Linked(m, k, [], 0);
    }
  }

  /** A change of list k leaves the other lists linked. */
  lemma OtherLists(pool: Pool, m: Mem, n: Mem, part: Part, lists: seq<seq<int>>, open: set<int>, k: nat, l: seq<int>,
                   o: nat)
    requires State(pool, m, part, lists, open) && k < pool.order && o < pool.order && o != k
    requires OnlyList(m, n, k, l) && forall x | x in l :: !IsFree(part, x, o)
    ensures Chain(n, o, lists[o])
  {
    assert Filed(m, part, o, lists[o]);
    assert SameLinks(m, n, Head(o));
    forall x | x in lists[o] ensures SameLinks(m, n, At(x)) {
      assert IsFree(part, x, o);
    }
    ChainFrame(m, n, o, lists[o]);
  }

  lemma DequeueKeepsLists(pool: Pool, m: Mem, part: Part, lists: seq<seq<int>>, open: set<int>, k: nat, t: nat)
    requires State(pool, m, part, lists, open) && k < pool.order && t < |lists[k]|
    ensures var x := lists[k][t];
            && Has(m, At(x)) && Has(m, Get(m, At(x)).prev) && Has(m, Get(m, At(x)).next)
            && Sized(pool, Dequeued(m, x))
            && (forall o: nat | o < pool.order && o != k :: Chain(Dequeued(m, x), o, lists[o]))
            && Chain(Dequeued(m, x), k, Dropped(lists[k], t))
            && (forall r :: SameTags(m, Dequeued(m, x), r))
            && (forall y :: y in Dropped(lists[k], t) <==> IsFree(part, y, k) && y != x)
  {
    var l := lists[k];
    assert Filed(m, part, k, l);
    DequeueReady(m, k, l, t);
    DequeueChain(m, k, l, t);
    var n := Dequeued(m, l[t]);
    forall o: nat | o < pool.order && o != k ensures Chain(n, o, lists[o]) {
      assert forall x | x in l :: IsFree(part, x, k);
      OtherLists(pool, m, n, part, lists, open, k, l, o);
    }
    DroppedMembers(l, t);
  }

  /** The step of Buddy::_free that merges. */
  lemma MergeState(pool: Pool, m: Mem, part: Part, lists: seq<seq<int>>, i: int, k: nat, t: nat)
    requires State(pool, m, part, lists, {i}) && Mergeable(pool, part, i, k)
    requires t < |lists[k]| && lists[k][t] == Buddy(i, k)
    ensures var x := Buddy(i, k);
            && Has(m, At(x)) && Has(m, Get(m, At(x)).prev) && Has(m, Get(m, At(x)).next)
            && State(pool, Dequeued(m, x), Merged(part, i, k), lists[k := Dropped(lists[k], t)], {Min(i, x)})
  {
    DequeueKeepsLists(pool, m, part, lists, {i}, k, t);
    MergeKeeps(pool, part, i, k);
    MergeCoalesced(pool, part, i, k);
    var x := Buddy(i, k);
    var n, q, ls := Dequeued(m, x), Merged(part, i, k), lists[k := Dropped(lists[k], t)];
    forall y | y in q && y !in {Min(i, x)} ensures Tagged(n, q, y) {
      assert Tagged(m, part, y) && SameTags(m, n, At(y));
    }
    forall o: nat | o < pool.order ensures Filed(n, q, o, ls[o]) {
      assert Filed(m, part, o, lists[o]);
      forall y ensures IsFree(q, y, o) <==> IsFree(part, y, o) && y != x {
        BuddyFacts(i, k);
      }
    }
  }

  /** The step of Buddy::_alloc that takes the first block of a list. */
  lemma TakeState(pool: Pool, m: Mem, part: Part, lists: seq<seq<int>>, j: nat, ord: nat)
    requires State(pool, m, part, lists, {}) && j < pool.order && lists[j] != []
    ensures var x := lists[j][0];
            && Has(m, At(x)) && Has(m, Get(m, At(x)).prev) && Has(m, Get(m, At(x)).next) && IsFree(part, x, j)
            && State(pool, SetTag(Dequeued(m, x), x, ord, Used), Retag(part, x, false),
                     lists[j := Dropped(lists[j], 0)], {x})
  {
    assert Filed(m, part, j, lists[j]);
    DequeueKeepsLists(pool, m, part, lists, {}, j, 0);
    var x := lists[j][0];
    assert IsFree(part, x, j);
    RetagKeeps(pool, part, x, false);
    RetagCoalesced(pool, part, x, false);
    var d := Dequeued(m, x);
    var n, q, ls := SetTag(d, x, ord, Used), Retag(part, x, false), lists[j := Dropped(lists[j], 0)];
    PutFacts(d, At(x), Get(d, At(x)).(ord := ord, tag := Used));
    forall y | y in q && y !in {x} ensures Tagged(n, q, y) {
      assert Tagged(m, part, y) && SameTags(m, d, At(y));
    }
    forall o: nat | o < pool.order ensures Filed(n, q, o, ls[o]) {
      assert Filed(m, part, o, lists[o]);
      SetTagChain(d, x, ord, Used, o, ls[o]);
      assert forall y :: IsFree(q, y, o) <==> IsFree(part, y, o) && y != x;
    }
  }

  /** The step of Buddy::_alloc that splits off the upper half. */
  lemma SplitState(pool: Pool, m: Mem, part: Part, lists: seq<seq<int>>, b: int, x: int, j: nat)
    requires State(pool, m, part, lists, {b}) && j < pool.order && lists[j] == []
    requires b in part && part[b] == Block(j + 1, false) && x == b + Pow2(j)
    ensures Has(m, Head(j)) && Has(m, At(x))
    ensures State(pool, SetTag(Restarted(m, j, x), x, j, Free), Halved(part, b, x, j), lists[j := [x]], {b})
    ensures SameTags(m, SetTag(Restarted(m, j, x), x, j, Free), At(b))
    ensures FreePages(pool, Halved(part, b, x, j)) + Span(b, j) == FreePages(pool, part) + Span(b, j + 1)
    ensures UsedBlocks(Halved(part, b, x, j)) - {b} == UsedBlocks(part) - {b}
  {
    SplitPart(pool, m, part, b, x, j);
    SplitHeaders(pool, m, part, lists, b, x, j);
  }

  lemma SplitPart(pool: Pool, m: Mem, part: Part, b: int, x: int, j: nat)
    requires Sized(pool, m) && Partition(pool, part) && Coalesced(pool, part)
    requires b in part && part[b] == Block(j + 1, false) && x == b + Pow2(j)
    ensures Has(m, At(x)) && x !in part
    ensures Partition(pool, Halved(part, b, x, j)) && Coalesced(pool, Halved(part, b, x, j))
    ensures FreePages(pool, Halved(part, b, x, j)) + Span(b, j) == FreePages(pool, part) + Span(b, j + 1)
    ensures UsedBlocks(Halved(part, b, x, j)) - {b} == UsedBlocks(part) - {b}
  {
    HalvedKeeps(pool, part, b, j);
    HalvedCoalesced(pool, part, b, j);
    HalvedFree(pool, part, b, j);
    HalvedCovers(pool, part, b, j, b, b);
    HalvedUsed(part, b, x, j);
    BlockHasHeader(pool, m, Halved(part, b, x, j), x);
  }

  lemma SplitHeaders(pool: Pool, m: Mem, part: Part, lists: seq<seq<int>>, b: int, x: int, j: nat)
    requires State(pool, m, part, lists, {b}) && j < pool.order && lists[j] == []
    requires b in part && !part[b].free && x !in part && Has(m, At(x)) && Has(m, Head(j))
    requires Partition(pool, Halved(part, b, x, j)) && Coalesced(pool, Halved(part, b, x, j))
    ensures State(pool, SetTag(Restarted(m, j, x), x, j, Free), Halved(part, b, x, j), lists[j := [x]], {b})
    ensures SameTags(m, SetTag(Restarted(m, j, x), x, j, Free), At(b))
  {
    RestartChain(m, j, x);
    var d := Restarted(m, j, x);
    var q, ls, n := Halved(part, b, x, j), lists[j := [x]], SetTag(d, x, j, Free);
    PutFacts(d, At(x), Get(d, At(x)).(ord := j, tag := Free));
    forall y | y in part && y != x ensures SameTags(m, n, At(y)) {
      assert SameTags(m, d, At(y));
    }
    forall y | y in q && y !in {b} ensures Tagged(n, q, y) {
      if y != x { assert Tagged(m, part, y); }
    }
    forall o: nat | o < pool.order ensures Filed(n, q, o, ls[o]) {
      SplitLists(pool, m, part, lists, b, x, j, d, o);
    }
  }

  lemma SplitLists(pool: Pool, m: Mem, part: Part, lists: seq<seq<int>>, b: int, x: int, j: nat, d: Mem, o: nat)
    requires State(pool, m, part, lists, {b}) && j < pool.order && lists[j] == [] && o < pool.order
    requires b in part && !part[b].free && x !in part && Has(d, At(x))
    requires Chain(d, j, [x]) && OnlyList(m, d, j, [x])
    ensures Filed(SetTag(d, x, j, Free), Halved(part, b, x, j), o, lists[j := [x]][o])
  {
    var q, ls := Halved(part, b, x, j), lists[j := [x]];
    assert Filed(m, part, o, lists[o]);
    if o != j { OtherLists(pool, m, d, part, lists, {b}, j, [x], o); }
    SetTagChain(d, x, j, Free, o, ls[o]);
    assert forall y :: IsFree(q, y, o) <==> IsFree(part, y, o) || (o == j && y == x);
  }

  /** The end of Buddy::_free. */
  lemma FileState(pool: Pool, m: Mem, part: Part, lists: seq<seq<int>>, i: int, k: nat)
    requires State(pool, m, part, lists, {i}) && i in part && part[i] == Block(k, false)
    requires k + 1 < pool.order ==> !IsFree(part, Buddy(i, k), k)
    ensures k < pool.order && Has(m, At(i))
    ensures var d := SetTag(m, i, k, Free);
            && Has(d, Head(k)) && Has(d, At(i)) && Has(d, Get(d, Head(k)).next)
            && State(pool, Enqueued(d, k, i), Retag(part, i, true), lists[k := [i] + lists[k]], {})
  {
    BlockHasHeader(pool, m, part, i);
    RetagKeeps(pool, part, i, true);
    RetagCoalesced(pool, part, i, true);
    var d := SetTag(m, i, k, Free);
    PutFacts(m, At(i), Get(m, At(i)).(ord := k, tag := Free));
    var l := lists[k];
    assert Filed(m, part, k, l);
    SetTagChain(m, i, k, Free, k, l);
    EnqueueReady(d, k, l);
    assert i !in l;
    EnqueueChain(d, k, l, i);
    FileStateLists(pool, m, part, lists, i, k, d, Enqueued(d, k, i));
  }

  lemma FileStateLists(pool: Pool, m: Mem, part: Part, lists: seq<seq<int>>, i: int, k: nat, d: Mem, n: Mem)
    requires State(pool, m, part, lists, {i}) && i in part && part[i] == Block(k, false)
    requires Partition(pool, Retag(part, i, true)) && Coalesced(pool, Retag(part, i, true))
    requires k < pool.order && Has(m, At(i)) && d == SetTag(m, i, k, Free)
    requires Chain(n, k, [i] + lists[k]) && OnlyList(d, n, k, [i] + lists[k]) && forall r :: SameTags(d, n, r)
    ensures State(pool, n, Retag(part, i, true), lists[k := [i] + lists[k]], {})
  {
    var q, ls := Retag(part, i, true), lists[k := [i] + lists[k]];
    PutFacts(m, At(i), Get(m, At(i)).(ord := k, tag := Free));
    forall y | y in q ensures Tagged(n, q, y) {
      assert SameTags(d, n, At(y));
      if y != i { assert Tagged(m, part, y); }
    }
    forall o: nat | o < pool.order ensures Filed(n, q, o, ls[o]) {
      assert Filed(m, part, o, lists[o]);
      assert forall y :: y in [i] + lists[k] <==> y == i || IsFree(part, y, k) by {
        assert Filed(m, part, k, lists[k]);
      }
      if o != k {
        forall x | x in lists[o] ensures SameLinks(m, n, At(x)) {
          assert IsFree(part, x, o) && SameLinks(d, n, At(x));
        }
        assert SameLinks(d, n, Head(o));
        ChainFrame(m, n, o, lists[o]);
      }
      assert forall y :: IsFree(q, y, o) <==> IsFree(part, y, o) || (o == k && y == i);
    }
  }

  lemma EmptyLists(pool: Pool, m: Mem, part: Part, lists: seq<seq<int>>, ord: nat, j: nat)
    requires State(pool, m, part, lists, {}) && j <= pool.order
    requires forall k: nat | ord <= k < j :: lists[k] == []
    ensures forall i: int, k: nat | ord <= k < j :: !IsFree(part, i, k)
  {
    forall i: int, k: nat | ord <= k < j ensures !IsFree(part, i, k) {
      assert Filed(m, part, k, lists[k]);
    }
  }
}
