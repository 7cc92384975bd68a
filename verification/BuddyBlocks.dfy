/** Partitions of a page range into aligned power-of-two blocks, as the buddy allocator of src/buddy.cpp keeps them. */
module Blocks {
  import opened Bits

  datatype Block = Block(ord: nat, free: bool)

  /** Blocks by the index of their first page. */
  type Part = map<int, Block>

  /** The page indices managed and the number of block orders. Indices are relative to the aligned base and may be
      negative. */
  datatype Pool = Pool(min: int, max: int, order: nat)

  predicate Inside(pool: Pool, i: int, k: nat) { pool.min <= i && i + Pow2(k) <= pool.max }

  predicate Fits(pool: Pool, i: int, k: nat) { k < pool.order && Aligned(i, k) && Inside(pool, i, k) }

  predicate Covers(part: Part, i: int, p: int) { i in part && InRange(p, i, part[i].ord) }

  ghost predicate Covered(part: Part, p: int) { exists i :: Covers(part, i, p) }

  /** Every block is aligned and inside the pool, and every page is in exactly one block. */
  ghost predicate Partition(pool: Pool, part: Part) {
    && (forall i | i in part :: Fits(pool, i, part[i].ord))
    && (forall p | pool.min <= p < pool.max :: Covered(part, p))
    && (forall i, j, p | Covers(part, i, p) && Covers(part, j, p) :: i == j)
  }

  /** `i ^ (1 << k)` on two's complement words of any sign. */
  function Buddy(i: int, k: nat): int { if Even(i, k) then i + Pow2(k) else i - Pow2(k) }

  /** Bit k is clear. */
  predicate Even(i: int, k: nat) { i / Pow2(k) % 2 == 0 }

  predicate IsFree(part: Part, i: int, k: nat) { i in part && part[i] == Block(k, true) }

  /** No two free buddies stay apart. */
  ghost predicate Coalesced(pool: Pool, part: Part) {
    forall i: int, k: nat | IsFree(part, i, k) && k + 1 < pool.order :: !IsFree(part, Buddy(i, k), k)
  }

  ghost predicate FreePage(part: Part, p: int) { exists i :: Covers(part, i, p) && part[i].free }

  ghost function FreePages(pool: Pool, part: Part): set<int> {
    set p | pool.min <= p < pool.max && FreePage(part, p)
  }

  ghost function Span(i: int, k: nat): set<int> {
    set p | i <= p < i + Pow2(k) && InRange(p, i, k)
  }

  /** The pages of `whole` are the free ones and those of the block at i of order k. */
  ghost predicate Joined(free: set<int>, i: int, k: nat, whole: set<int>) { free + Span(i, k) == whole }

  function UsedBlocks(part: Part): map<int, nat> { map i | i in part && !part[i].free :: part[i].ord }

  lemma BlockOf(pool: Pool, part: Part, p: int) returns (i: int)
    requires Partition(pool, part) && pool.min <= p < pool.max
    ensures Covers(part, i, p)
  {
    assert Covered(part, p);
    i :| Covers(part, i, p);
  }

  predicate Between(a: int, p: int, b: int) { a <= p < b }

  ghost function Pages(a: int, b: int): set<int> { set p | a <= p < b && Between(a, p, b) }

  lemma PagesStep(a: int, b: int, f: int, i: int)
    requires a <= f <= i < b
    ensures Pages(f, i) + {i} == Pages(f, i + 1) && i in Pages(a, b) - Pages(f, i)
    ensures Pages(a, b) - Pages(f, i) - {i} == Pages(a, b) - Pages(f, i + 1)
  {
  }

  lemma PagesEnd(a: int, b: int, f: int, i: int)
    requires a <= f && i == Max(f, b)
    ensures Pages(f, i) == Pages(f, b) && Pages(a, b) - Pages(f, i) == Pages(a, Min(f, b))
  {
  }

  ghost function SinglePages(pool: Pool): Part { map i | i in Pages(pool.min, pool.max) :: Block(0, false) }

  lemma SinglePagesOk(pool: Pool)
    requires pool.order > 0
    ensures Partition(pool, SinglePages(pool)) && Coalesced(pool, SinglePages(pool))
    ensures FreePages(pool, SinglePages(pool)) == {} && UsedBlocks(SinglePages(pool)).Keys == Pages(pool.min, pool.max)
  {
    var part := SinglePages(pool);
    forall p | pool.min <= p < pool.max ensures Covered(part, p) {
      assert Covers(part, p, p);
    }
  }

  // ----- buddies

  lemma EvenPart(h: int, b: int, d: int)
    ensures (2 * h + b) * d == h * (2 * d) + b * d
  {
  }

  /** Of two aligned neighbours one starts a block of the next order. */
  lemma EvenOrOdd(i: int, k: nat)
    requires Aligned(i, k)
    ensures if Even(i, k) then Aligned(i, k + 1) else i % Pow2(k + 1) == Pow2(k)
  {
    var d, q := Pow2(k), i / Pow2(k);
    DivBounds(i, d);
    DivDiv(i, d, 2);
    EvenPart(q / 2, q % 2, d);
    DivBounds(i, d * 2);
  }

  lemma NextMultiple(x: int, d: int)
    requires d > 0 && x % d == 0
    ensures (x + d) % d == 0 && (x + d) / d == x / d + 1
  {
    var q := x / d;
    DivBounds(x, d);
    assert (q + 1) * d == q * d + d;
    DivUnique(x + d, d, q + 1);
    DivBounds(x + d, d);
  }

  lemma StepUp(i: int, k: nat)
    requires Aligned(i, k)
    ensures Aligned(i + Pow2(k), k) && Even(i + Pow2(k), k) == !Even(i, k)
  {
    NextMultiple(i, Pow2(k));
  }

  lemma StepDown(i: int, k: nat)
    requires Aligned(i, k)
    ensures Aligned(i - Pow2(k), k) && Even(i - Pow2(k), k) == !Even(i, k)
  {
    AlignedMultiple(1, k);
    AlignedAdd(i, Pow2(k), k);
    StepUp(i - Pow2(k), k);
  }

  lemma BuddyFacts(i: int, k: nat)
    requires Aligned(i, k)
    ensures Aligned(Buddy(i, k), k) && Buddy(Buddy(i, k), k) == i
    ensures Buddy(i, k) == i + Pow2(k) || Buddy(i, k) == i - Pow2(k)
    ensures Aligned(Min(i, Buddy(i, k)), k + 1)
  {
    if Even(i, k) {
      StepUp(i, k);
      EvenOrOdd(i, k);
    } else {
      StepDown(i, k);
      EvenOrOdd(i - Pow2(k), k);
    }
  }

  /** The upper half of an aligned block is the buddy of its lower half. */
  lemma HalfBuddy(i: int, k: nat)
    requires Aligned(i, k + 1)
    ensures Aligned(i, k) && Buddy(i, k) == i + Pow2(k) && Buddy(i + Pow2(k), k) == i
  {
    AlignedFiner(i, k, k + 1);
    EvenOrOdd(i, k);
    BuddyFacts(i, k);
  }

  /** The header read for a buddy is that of a block, never a left-over inside one: a block's buddy index, when it lies
      in the pool, starts a block, and no larger one. */
  lemma BuddyIsLive(pool: Pool, part: Part, i: int, k: nat)
    requires Partition(pool, part) && i in part && part[i].ord == k
    requires pool.min <= Buddy(i, k) < pool.max
    ensures Buddy(i, k) in part && part[Buddy(i, k)].ord <= k
  {
    BuddyFacts(i, k);
    var j := Buddy(i, k);
    var m := BlockOf(pool, part, j);
    var o := part[m].ord;
    if o > k {
      Nested(j, Min(i, j), k + 1, m, o);
      assert Covers(part, m, i) && Covers(part, i, i);
    } else {
      Nested(j, m, o, j, k);
    }
  }

  // ----- the three changes of a partition

  function Retag(part: Part, i: int, free: bool): Part
    requires i in part
  {
    part[i := Block(part[i].ord, free)]
  }

  /** Merges the block at i and its buddy, both of order k, into a used block. */
  function Merged(part: Part, i: int, k: nat): Part {
    (part - {i, Buddy(i, k)})[Min(i, Buddy(i, k)) := Block(k + 1, false)]
  }

  /** Splits a block of order k + 1: the lower half is used, the upper half, at x, free. */
  function Halved(part: Part, i: int, x: int, k: nat): Part { part[i := Block(k, false)][x := Block(k, true)] }

  lemma RetagKeeps(pool: Pool, part: Part, i: int, free: bool)
    requires Partition(pool, part) && i in part
    ensures Partition(pool, Retag(part, i, free))
  {
    var q := Retag(part, i, free);
    forall p | pool.min <= p < pool.max ensures Covered(q, p) {
      var x := BlockOf(pool, part, p);
      assert Covers(q, x, p);
    }
    forall x, p ensures Covers(q, x, p) <==> Covers(part, x, p) {}
  }

  predicate Mergeable(pool: Pool, part: Part, i: int, k: nat) {
    && k + 1 < pool.order
    && i in part && part[i].ord == k && !part[i].free && IsFree(part, Buddy(i, k), k)
  }

  lemma MergeCovers(pool: Pool, part: Part, i: int, k: nat, x: int, p: int)
    requires Partition(pool, part) && Mergeable(pool, part, i, k)
    ensures var j := Buddy(i, k);
            Covers(Merged(part, i, k), x, p) <==> if x == Min(i, j) then Covers(part, i, p) || Covers(part, j, p)
                                                  else x != i && x != j && Covers(part, x, p)
  {
    BuddyFacts(i, k);
  }

  lemma MergeKeeps(pool: Pool, part: Part, i: int, k: nat)
    requires Partition(pool, part) && Mergeable(pool, part, i, k)
    ensures Partition(pool, Merged(part, i, k))
  {
    BuddyFacts(i, k);
    var q, j := Merged(part, i, k), Buddy(i, k);
    forall x, p ensures Covers(q, x, p) <==> if x == Min(i, j) then Covers(part, i, p) || Covers(part, j, p)
                                             else x != i && x != j && Covers(part, x, p) {
      MergeCovers(pool, part, i, k, x, p);
    }
    forall p | pool.min <= p < pool.max ensures Covered(q, p) {
      var x := BlockOf(pool, part, p);
      assert Covers(q, if x == i || x == j then Min(i, j) else x, p);
    }
  }

  lemma HalvedCovers(pool: Pool, part: Part, i: int, k: nat, x: int, p: int)
    requires Partition(pool, part) && i in part && part[i].ord == k + 1
    ensures i + Pow2(k) !in part
    ensures Covers(Halved(part, i, i + Pow2(k), k), x, p) <==>
            if x == i then InRange(p, i, k) else if x == i + Pow2(k) then InRange(p, x, k) else Covers(part, x, p)
    ensures InRange(p, i, k) || InRange(p, i + Pow2(k), k) <==> Covers(part, i, p)
  {
    var j := i + Pow2(k);
    if j in part {
      assert Covers(part, j, j) && Covers(part, i, j);
    }
  }

  lemma HalvedKeeps(pool: Pool, part: Part, i: int, k: nat)
    requires Partition(pool, part) && i in part && part[i].ord == k + 1
    ensures Partition(pool, Halved(part, i, i + Pow2(k), k))
  {
    var q, j := Halved(part, i, i + Pow2(k), k), i + Pow2(k);
    forall x | x in q ensures Fits(pool, x, q[x].ord) {
      HalfBuddy(i, k);
      BuddyFacts(i, k);
      assert Fits(pool, i, k + 1);
    }
    forall p | pool.min <= p < pool.max ensures Covered(q, p) {
      var x := BlockOf(pool, part, p);
      var y := if x == i && p >= j then j else x;
      HalvedCovers(pool, part, i, k, y, p);
      assert Covers(q, y, p);
    }
    forall x, y, p | Covers(q, x, p) && Covers(q, y, p) ensures x == y {
      HalvedCovers(pool, part, i, k, x, p);
      HalvedCovers(pool, part, i, k, y, p);
    }
  }

  // ----- the same changes on free pages and used blocks

  lemma FreePageAt(pool: Pool, part: Part, i: int, p: int)
    requires Partition(pool, part) && Covers(part, i, p)
    ensures p in FreePages(pool, part) <==> part[i].free
  {
  }

  lemma UsedIsNotFree(pool: Pool, part: Part, i: int)
    requires Partition(pool, part) && i in part
    ensures part[i].free ==> Span(i, part[i].ord) <= FreePages(pool, part)
    ensures !part[i].free ==> Span(i, part[i].ord) !! FreePages(pool, part)
  {
    forall p | p in Span(i, part[i].ord) ensures p in FreePages(pool, part) <==> part[i].free {
      assert Covers(part, i, p);
      FreePageAt(pool, part, i, p);
    }
  }

  lemma RetagFree(pool: Pool, part: Part, i: int, free: bool)
    requires Partition(pool, part) && i in part
    ensures var q := Retag(part, i, free);
            FreePages(pool, q) == if free then FreePages(pool, part) + Span(i, part[i].ord)
                                  else FreePages(pool, part) - Span(i, part[i].ord)
  {
    var q := Retag(part, i, free);
    RetagKeeps(pool, part, i, free);
    forall p | pool.min <= p < pool.max
      ensures p in FreePages(pool, q) <==> if p in Span(i, part[i].ord) then free else p in FreePages(pool, part) {
      var x := BlockOf(pool, part, p);
      FreePageAt(pool, part, x, p);
      assert Covers(q, x, p);
      FreePageAt(pool, q, x, p);
      if p in Span(i, part[i].ord) { assert Covers(part, i, p); }
    }
  }

  lemma MergeFree(pool: Pool, part: Part, i: int, k: nat)
    requires Partition(pool, part) && Mergeable(pool, part, i, k)
    ensures FreePages(pool, Merged(part, i, k)) + Span(Min(i, Buddy(i, k)), k + 1) == FreePages(pool, part) + Span(i, k)
  {
    var q, j := Merged(part, i, k), Buddy(i, k);
    BuddyFacts(i, k);
    MergeKeeps(pool, part, i, k);
    UsedIsNotFree(pool, part, j);
    forall p | pool.min <= p < pool.max && p !in Span(Min(i, j), k + 1)
      ensures p in FreePages(pool, q) <==> p in FreePages(pool, part) {
      var x := BlockOf(pool, part, p);
      assert x != i && x != j;
      MergeCovers(pool, part, i, k, x, p);
      FreePageAt(pool, part, x, p);
      FreePageAt(pool, q, x, p);
    }
    assert Span(Min(i, j), k + 1) == Span(i, k) + Span(j, k);
  }

  lemma HalvedFree(pool: Pool, part: Part, i: int, k: nat)
    requires Partition(pool, part) && i in part && part[i] == Block(k + 1, false)
    ensures FreePages(pool, Halved(part, i, i + Pow2(k), k)) + Span(i, k) == FreePages(pool, part) + Span(i, k + 1)
  {
    var q, j := Halved(part, i, i + Pow2(k), k), i + Pow2(k);
    HalvedKeeps(pool, part, i, k);
    forall p | pool.min <= p < pool.max && p !in Span(i, k + 1)
      ensures p in FreePages(pool, q) <==> p in FreePages(pool, part) {
      var x := BlockOf(pool, part, p);
      HalvedCovers(pool, part, i, k, x, p);
      assert Covers(q, x, p);
      FreePageAt(pool, part, x, p);
      FreePageAt(pool, q, x, p);
    }
    UsedIsNotFree(pool, q, j);
    assert Span(i, k + 1) == Span(i, k) + Span(j, k);
  }

  lemma MergeUsed(pool: Pool, part: Part, i: int, k: nat)
    requires Partition(pool, part) && Mergeable(pool, part, i, k)
    ensures UsedBlocks(Merged(part, i, k)) - {Min(i, Buddy(i, k))} == UsedBlocks(part) - {i}
  {
  }

  lemma HalvedUsed(part: Part, i: int, x: int, k: nat)
    requires i in part && !part[i].free && x !in part
    ensures UsedBlocks(Halved(part, i, x, k)) - {i} == UsedBlocks(part) - {i}
  {
  }

  lemma RetagTaken(pool: Pool, part: Part, i: int, k: nat)
    requires Partition(pool, part) && IsFree(part, i, k)
    ensures FreePages(pool, Retag(part, i, false)) + Span(i, k) == FreePages(pool, part)
    ensures UsedBlocks(Retag(part, i, false)) - {i} == UsedBlocks(part) - {i}
  {
    RetagFree(pool, part, i, false);
    UsedIsNotFree(pool, part, i);
  }

  lemma RetagFreed(pool: Pool, part: Part, i: int, k: nat)
    requires Partition(pool, part) && i in part && part[i] == Block(k, false)
    ensures FreePages(pool, Retag(part, i, true)) == FreePages(pool, part) + Span(i, k)
    ensures UsedBlocks(Retag(part, i, true)) == UsedBlocks(part) - {i}
  {
    RetagFree(pool, part, i, true);
    RetagUnused(part, i);
  }

  lemma RetagUnused(part: Part, i: int)
    requires i in part
    ensures UsedBlocks(Retag(part, i, true)) == UsedBlocks(part) - {i}
  {
  }

  lemma SameElsewhere(u: map<int, nat>, v: map<int, nat>, i: int, k: nat)
    requires u - {i} == v - {i} && i in u && u[i] == k
    ensures u == v[i := k]
  {
    forall x | x in u ensures x in v[i := k] && v[i := k][x] == u[x] {
      if x != i { assert x in u - {i} && (u - {i})[x] == (v - {i})[x]; }
    }
    forall x | x in v[i := k] ensures x in u {
      if x != i { assert x in v - {i}; }
    }
  }

  // ----- coalescing

  lemma MergeCoalesced(pool: Pool, part: Part, i: int, k: nat)
    requires Partition(pool, part) && Mergeable(pool, part, i, k) && Coalesced(pool, part)
    ensures Coalesced(pool, Merged(part, i, k))
  {
    var q := Merged(part, i, k);
    assert forall x: int, o: nat :: IsFree(q, x, o) ==> IsFree(part, x, o);
  }

  lemma HalvedCoalesced(pool: Pool, part: Part, i: int, k: nat)
    requires Partition(pool, part) && i in part && part[i] == Block(k + 1, false) && Coalesced(pool, part)
    ensures Coalesced(pool, Halved(part, i, i + Pow2(k), k))
  {
    var j := i + Pow2(k);
    var q := Halved(part, i, j, k);
    HalfBuddy(i, k);
    HalvedKeeps(pool, part, i, k);
    forall x: int, o: nat | IsFree(q, x, o) && o + 1 < pool.order ensures !IsFree(q, Buddy(x, o), o) {
      assert Fits(pool, x, o);
      HalvedApart(part, i, j, k, x, o);
      if x != j { assert IsFree(part, x, o); }
    }
  }

  lemma HalvedApart(part: Part, i: int, j: int, k: nat, x: int, o: nat)
    requires Buddy(j, k) == i && i != j && Aligned(x, o) && i in part && IsFree(Halved(part, i, j, k), x, o)
    requires x != j ==> !IsFree(part, Buddy(x, o), o)
    ensures !IsFree(Halved(part, i, j, k), Buddy(x, o), o)
  {
    BuddyFacts(x, o);
  }

  lemma RetagCoalesced(pool: Pool, part: Part, i: int, free: bool)
    requires Partition(pool, part) && i in part && Coalesced(pool, part)
    requires free && part[i].ord + 1 < pool.order ==> !IsFree(part, Buddy(i, part[i].ord), part[i].ord)
    ensures Coalesced(pool, Retag(part, i, free))
  {
    var q := Retag(part, i, free);
    forall x: int, o: nat | IsFree(q, x, o) && o + 1 < pool.order ensures !IsFree(q, Buddy(x, o), o) {
      assert Fits(pool, x, o);
      BuddyFacts(x, o);
      if x != i { assert IsFree(part, x, o); }
    }
  }

  // ----- the canonical form

  /** An aligned block of free pages. */
  ghost predicate FreeRun(pool: Pool, free: set<int>, i: int, k: nat) { Fits(pool, i, k) && Span(i, k) <= free }

  /** ... that is not the half of a larger one. */
  ghost predicate Maximal(pool: Pool, free: set<int>, i: int, k: nat) {
    && FreeRun(pool, free, i, k)
    && !FreeRun(pool, free, Min(i, Buddy(i, k)), k + 1)
  }

  lemma NotTwoHalves(pool: Pool, part: Part, i: int, k: nat, x: int)
    requires Partition(pool, part) && Coalesced(pool, part) && k + 1 < pool.order && IsFree(part, i, k)
    requires Covers(part, x, Buddy(i, k))
    ensures !(part[x].free && part[x].ord >= k)
  {
    BuddyIsLive(pool, part, i, k);
    var j := Buddy(i, k);
    assert Covers(part, j, j);
    assert x == j && !IsFree(part, j, k);
  }

  ghost predicate HasRun(pool: Pool, free: set<int>, ord: nat) { exists i :: FreeRun(pool, free, i, ord) }

  /** A maximal run of at least 2^ord pages and of no larger an order than any other such run. */
  ghost predicate Smallest(pool: Pool, free: set<int>, ord: nat, i: int, k: nat) {
    && Maximal(pool, free, i, k) && ord <= k
    && (forall x: int, o: nat | ord <= o < k :: !Maximal(pool, free, x, o))
  }

  /** In a coalesced partition an aligned run of free pages is never fragmented. */
  lemma {:induction false} RunInOneBlock(pool: Pool, part: Part, i: int, k: nat) returns (m: int)
    requires Partition(pool, part) && Coalesced(pool, part) && FreeRun(pool, FreePages(pool, part), i, k)
    ensures Covers(part, m, i) && part[m].free && part[m].ord >= k
    ensures m <= i && i + Pow2(k) <= m + Pow2(part[m].ord)
    decreases k
  {
    m := BlockOf(pool, part, i);
    var o := part[m].ord;
    assert i in Span(i, k);
    FreePageAt(pool, part, m, i);
    if o >= k {
      Nested(i, i, k, m, o);
    } else {
      Nested(i, m, o, i, k);
      Pow2Mono(o, k);
      AlignedFiner(i, o + 1, k);
      HalfBuddy(i, o);
      BuddyFacts(i, o);
      var j := i + Pow2(o);
      assert Span(j, o) <= Span(i, k);
      var x := RunInOneBlock(pool, part, j, o);
      NotTwoHalves(pool, part, i, o, x);
    }
  }

  /** The free blocks are exactly the maximal aligned runs of free pages. */
  lemma Canonical(pool: Pool, part: Part, i: int, k: nat)
    requires Partition(pool, part) && Coalesced(pool, part)
    ensures IsFree(part, i, k) <==> Maximal(pool, FreePages(pool, part), i, k)
  {
    var free := FreePages(pool, part);
    if IsFree(part, i, k) {
      UsedIsNotFree(pool, part, i);
      BuddyFacts(i, k);
      var m := Min(i, Buddy(i, k));
      if FreeRun(pool, free, m, k + 1) {
        var x := RunInOneBlock(pool, part, m, k + 1);
        assert Covers(part, x, i) && Covers(part, i, i);
      }
    }
    if Maximal(pool, free, i, k) {
      var m := RunInOneBlock(pool, part, i, k);
      MaximalIsBlock(pool, part, i, k, m);
    }
  }

  lemma MaximalIsBlock(pool: Pool, part: Part, i: int, k: nat, m: int)
    requires Partition(pool, part) && Maximal(pool, FreePages(pool, part), i, k)
    requires Covers(part, m, i) && part[m].free && part[m].ord >= k
    ensures IsFree(part, i, k)
  {
    var o := part[m].ord;
    if o == k {
      Nested(i, m, o, i, k);
    } else {
      BuddyFacts(i, k);
      var h := Min(i, Buddy(i, k));
      Nested(i, h, k + 1, m, o);
      UsedIsNotFree(pool, part, m);
      assert Span(h, k + 1) <= Span(m, o);
      assert FreeRun(pool, FreePages(pool, part), h, k + 1);
    }
  }

  /** Without a free block of sufficient order there is no sufficient run of free pages. */
  lemma NoBlockNoRun(pool: Pool, part: Part, ord: nat)
    requires Partition(pool, part) && Coalesced(pool, part)
    requires forall i: int, k: nat | ord <= k < pool.order :: !IsFree(part, i, k)
    ensures !HasRun(pool, FreePages(pool, part), ord)
  {
    forall i ensures !FreeRun(pool, FreePages(pool, part), i, ord) {
      if FreeRun(pool, FreePages(pool, part), i, ord) {
        var m := RunInOneBlock(pool, part, i, ord);
        assert Fits(pool, m, part[m].ord);
        assert IsFree(part, m, part[m].ord);
      }
    }
  }

  lemma FirstIsSmallest(pool: Pool, part: Part, ord: nat, b: int, j: nat)
    requires Partition(pool, part) && Coalesced(pool, part) && ord <= j && IsFree(part, b, j)
    requires forall i: int, k: nat | ord <= k < j :: !IsFree(part, i, k)
    ensures Smallest(pool, FreePages(pool, part), ord, b, j) && FreeRun(pool, FreePages(pool, part), b, ord)
  {
    Canonical(pool, part, b, j);
    forall x: int, o: nat | ord <= o < j ensures !Maximal(pool, FreePages(pool, part), x, o) {
      Canonical(pool, part, x, o);
    }
    assert Fits(pool, b, j);
    AlignedFiner(b, ord, j);
    Pow2Mono(ord, j);
    assert Span(b, ord) <= Span(b, j);
  }

  /** The free blocks depend only on which pages are free. */
  lemma SameFreePages(pool: Pool, p: Part, q: Part)
    requires Partition(pool, p) && Coalesced(pool, p) && Partition(pool, q) && Coalesced(pool, q)
    requires FreePages(pool, p) == FreePages(pool, q)
    ensures forall i: int, k: nat :: IsFree(p, i, k) <==> IsFree(q, i, k)
  {
    forall i: int, k: nat ensures IsFree(p, i, k) <==> IsFree(q, i, k) {
      Canonical(pool, p, i, k);
      Canonical(pool, q, i, k);
    }
  }
}
