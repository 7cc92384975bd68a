/** The buddy allocator of src/buddy.cpp: one pool of pages, its block headers and its free lists. */
module BuddyAllocator {
  import opened Bits
  import opened Options
  import opened Lists
  import opened Machine
  import opened Blocks
  import opened FreeLists
  import opened BuddyState
  import Quotas

  class Buddy {
    const pool: Pool
    const index: array<Header>
    const head: array<Header>
    ghost var part: Part
    ghost var lists: seq<seq<int>>

    ghost predicate Shape()
      reads this, index, head
    {
      index != head && Sized(pool, Memory())
    }

    ghost function Memory(): Mem
      reads this, index, head
    {
      Mem(pool.min, index[..], head[..])
    }

    ghost predicate Valid()
      reads this, index, head
    {
      Shape() && State(pool, Memory(), part, lists, {})
    }

    ghost function FreeSet(): set<int>
      reads this
    {
      FreePages(pool, part)
    }

    ghost function InUse(): map<int, nat>
      reads this
    {
      UsedBlocks(part)
    }

    /** All pages start out as used blocks of order 0; those from f on are then freed one by one. */
    constructor (pool: Pool, f: int, quota: Quotas.Quota)
      requires pool.min <= pool.max && pool.order > 0 && pool.min <= f
      modifies quota
      ensures Valid() && this.pool == pool && fresh(index) && fresh(head)
      ensures FreeSet() == Pages(f, pool.max)
      ensures InUse().Keys == Pages(pool.min, Min(f, pool.max)) && forall i | i in InUse() :: InUse()[i] == 0
      ensures Quotas.Balance(quota.View()) == old(Quotas.Balance(quota.View())) + Max(pool.max - f, 0)
    {
      this.pool := pool;
      index := new Header[pool.max - pool.min](_ => Blank());
      head := new Header[pool.order](_ => Blank());
      part := SinglePages(pool);
      lists := seq(pool.order, _ => []);
      new;
      InitHeads();
      FreeFrom(f, quota);
    }

    method InitHeads()
      requires Shape() && part == SinglePages(pool) && pool.order > 0
      requires |lists| == pool.order && forall k | 0 <= k < pool.order :: lists[k] == []
      requires forall k | 0 <= k < index.Length :: index[k] == Blank()
      modifies head
      ensures Valid() && FreeSet() == {} && InUse().Keys == Pages(pool.min, pool.max)
      ensures forall i | i in InUse() :: InUse()[i] == 0
    {
      for i := 0 to pool.order
        invariant Shape() && forall k: nat | k < i :: head[k].next == Head(k) && head[k].prev == Head(k)
      {
        head[i] := head[i].(next := Head(i), prev := Head(i));
      }
      InitialState(pool, Memory(), lists);
    }

    method FreeFrom(f: int, quota: Quotas.Quota)
      requires Valid() && pool.min <= f && FreeSet() == {} && InUse().Keys == Pages(pool.min, pool.max)
      requires forall i | i in InUse() :: InUse()[i] == 0
      modifies this, index, head, quota
      ensures Valid() && FreeSet() == Pages(f, pool.max)
      ensures InUse().Keys == Pages(pool.min, Min(f, pool.max)) && forall i | i in InUse() :: InUse()[i] == 0
      ensures Quotas.Balance(quota.View()) == old(Quotas.Balance(quota.View())) + Max(pool.max - f, 0)
    {
      var i := f;
      while i < pool.max
        invariant f <= i <= Max(f, pool.max) && Valid() && FreeSet() == Pages(f, i)
        invariant InUse().Keys == Pages(pool.min, pool.max) - Pages(f, i) && forall x | x in InUse() :: InUse()[x] == 0
        invariant Quotas.Balance(quota.View()) == old(Quotas.Balance(quota.View())) + (i - f)
      {
        PagesStep(pool.min, pool.max, f, i);
        FreePage(i, quota);
        i := i + 1;
      }
      PagesEnd(pool.min, pool.max, f, i);
    }

    method FreePage(i: int, quota: Quotas.Quota)
      requires Valid() && i in InUse() && InUse()[i] == 0
      modifies this, index, head, quota
      ensures Valid() && FreeSet() == old(FreeSet()) + {i} && InUse() == old(InUse()) - {i}
      ensures Quotas.Balance(quota.View()) == old(Quotas.Balance(quota.View())) + 1
    {
      assert Span(i, 0) == {i};
      Release(i, quota);
    }

    // ----- accesses through pointers

    function Read(r: Ref): (h: Header)
      requires Shape() && Has(Memory(), r)
      reads this, index, head
      ensures h == Get(Memory(), r)
    {
      if r.Head? then head[r.k] else index[r.i - pool.min]
    }

    method Write(r: Ref, h: Header)
      requires Shape() && Has(Memory(), r)
      modifies index, head
      ensures Shape() && Memory() == Put(old(Memory()), r, h)
    {
      if r.Head? { head[r.k] := h; } else { index[r.i - pool.min] := h; }
    }

    method Dequeue(x: int)
      requires Shape() && Has(Memory(), At(x))
      requires Has(Memory(), Get(Memory(), At(x)).prev) && Has(Memory(), Get(Memory(), At(x)).next)
      modifies index, head
      ensures Shape() && Memory() == Dequeued(old(Memory()), x)
    {
      var p, n := Read(At(x)).prev, Read(At(x)).next;
      Write(p, Read(p).(next := n));
      Write(n, Read(n).(prev := p));
    }

    method Enqueue(k: nat, x: int)
      requires Shape() && Has(Memory(), Head(k)) && Has(Memory(), At(x)) && Has(Memory(), Get(Memory(), Head(k)).next)
      modifies index, head
      ensures Shape() && Memory() == Enqueued(old(Memory()), k, x)
    {
      var n := Read(Head(k)).next;
      Write(At(x), Read(At(x)).(prev := Head(k)));
      Write(At(x), Read(At(x)).(next := n));
      Write(n, Read(n).(prev := At(x)));
      Write(Head(k), Read(Head(k)).(next := At(x)));
    }

    method Restart(k: nat, x: int)
      requires Shape() && Has(Memory(), Head(k)) && Has(Memory(), At(x))
      modifies index, head
      ensures Shape() && Memory() == Restarted(old(Memory()), k, x)
    {
      Write(At(x), Read(At(x)).(prev := Head(k)));
      Write(At(x), Read(At(x)).(next := Head(k)));
      Write(Head(k), Read(Head(k)).(prev := At(x)));
      Write(Head(k), Read(Head(k)).(next := At(x)));
    }

    method Mark(x: int, ord: nat, tag: Tag)
      requires Shape() && Has(Memory(), At(x))
      modifies index, head
      ensures Shape() && Memory() == SetTag(old(Memory()), x, ord, tag)
    {
      Write(At(x), Read(At(x)).(ord := ord, tag := tag));
    }

    // ----- Buddy::_alloc

    /** What is known while the block at b is split down: it has order j and is off the lists, which are empty between
        `ord` and j. Together with the block there are `whole` free pages, and `others` are the other used blocks. */
    ghost predicate Splitting(b: int, j: nat, ord: nat, whole: set<int>, others: map<int, nat>)
      reads this, index, head
    {
      && Shape() && State(pool, Memory(), part, lists, {b})
      && b in part && part[b] == Block(j, false)
      && Get(Memory(), At(b)).ord == ord && Get(Memory(), At(b)).tag == Used
      && NoneFrom(ord, j) && Joined(FreeSet(), b, part[b].ord, whole) && InUse() - {b} == others
    }

    method Halve(b: int, j: nat, ord: nat, ghost whole: set<int>, ghost others: map<int, nat>)
      requires ord <= j && Splitting(b, j + 1, ord, whole, others)
      modifies this, index, head
      ensures Splitting(b, j, ord, whole, others)
    {
      var buddy := b + Pow2(j);
      SplitState(pool, Memory(), part, lists, b, buddy, j) by { assert Fits(pool, b, part[b].ord); }
      StartList(j, buddy);
      lists := lists[j := [buddy]];
      part := Halved(part, b, buddy, j);
    }

    method StartList(j: nat, x: int)
      requires Shape() && Has(Memory(), Head(j)) && Has(Memory(), At(x))
      modifies index, head
      ensures Shape() && Memory() == SetTag(Restarted(old(Memory()), j, x), x, j, Free)
    {
      Restart(j, x);
      Mark(x, j, Free);
    }

    method TakeOff(x: int, ord: nat)
      requires Shape() && Has(Memory(), At(x))
      requires Has(Memory(), Get(Memory(), At(x)).prev) && Has(Memory(), Get(Memory(), At(x)).next)
      modifies index, head
      ensures Shape() && Memory() == SetTag(Dequeued(old(Memory()), x), x, ord, Used)
    {
      Dequeue(x);
      Mark(x, ord, Used);
    }

    method Take(j: nat, ord: nat) returns (b: int)
      requires Valid() && ord <= j < pool.order && lists[j] != [] && NoneFrom(ord, j)
      modifies this, index, head
      ensures IsFree(old(part), b, j) && Splitting(b, j, ord, old(FreeSet()), old(InUse()) - {b})
    {
      TakeState(pool, Memory(), part, lists, j, ord);
      EnqueueReady(Memory(), j, lists[j]) by { assert Filed(Memory(), part, j, lists[j]); }
      b := Read(Head(j)).next.i;
      RetagTaken(pool, part, b, j);
      TakeOff(b, ord);
      lists := lists[j := Dropped(lists[j], 0)];
      part := Retag(part, b, false);
    }

    method SplitDown(b: int, first: nat, ord: nat, ghost whole: set<int>, ghost others: map<int, nat>)
      requires ord <= first && Splitting(b, first, ord, whole, others)
      modifies this, index, head
      ensures Splitting(b, ord, ord, whole, others)
    {
      var j := first;
      while j != ord
        invariant ord <= j <= first
        invariant Splitting(b, j, ord, whole, others)
      {
        j := j - 1;
        Halve(b, j, ord, whole, others);
      }
    }

    /** Takes a block of order `first` and splits it down to order `ord`. */
    method Carve(first: nat, ord: nat) returns (b: int)
      requires Valid() && ord <= first < pool.order && lists[first] != [] && NoneFrom(ord, first)
      modifies this, index, head
      ensures Valid() && IsFree(old(part), b, first)
      ensures FreeSet() == old(FreeSet()) - Span(b, ord) && InUse() == old(InUse())[b := ord]
    {
      b := Take(first, ord);
      SplitDown(b, first, ord, old(FreeSet()), old(InUse()) - {b});
      UsedIsNotFree(pool, part, b);
      SameElsewhere(InUse(), old(InUse()), b, ord);
    }

    /** The list heads that Buddy::_alloc skips. */
    ghost predicate NoneFrom(ord: nat, j: nat)
      reads this
    {
      forall k: nat | ord <= k < j && k < |lists| :: lists[k] == []
    }

    /** Buddy::_alloc. It fails exactly when no aligned run of free pages is large enough; otherwise the block is cut
        from the beginning of a smallest maximal run that is. */
    method Alloc(ord: nat, quota: Quotas.Quota) returns (r: Option<int>)
      requires Valid()
      modifies this, index, head, quota
      ensures Valid()
      ensures r.None? <==> !HasRun(pool, old(FreeSet()), ord)
      ensures r.None? ==> FreeSet() == old(FreeSet()) && InUse() == old(InUse()) && quota.View() == old(quota.View())
      ensures r.Some? ==> && FreeSet() == old(FreeSet()) - Span(r.value, ord)
                          && r.value !in old(InUse()) && InUse() == old(InUse())[r.value := ord]
                          && quota.View() == Quotas.Charged(old(quota.View()), Pow2(ord))
      ensures r.Some? ==> && FreeRun(pool, old(FreeSet()), r.value, ord)
                          && exists k :: Smallest(pool, old(FreeSet()), ord, r.value, k)
    {
      var j := ord;
      while j < pool.order
        invariant ord <= j && Valid() && part == old(part) && lists == old(lists)
        invariant quota.View() == old(quota.View())
        invariant NoneFrom(ord, j)
      {
        assert Filed(Memory(), part, j, lists[j]);
        EnqueueReady(Memory(), j, lists[j]);
        if Read(Head(j)).next != Head(j) {
          EmptyLists(pool, Memory(), part, lists, ord, j);
          var b := Carve(j, ord);
          FirstIsSmallest(pool, old(part), ord, b, j);
          quota.Alloc(Pow2(ord));
          return Some(b);
        }
        j := j + 1;
      }
      EmptyLists(pool, Memory(), part, lists, ord, pool.order);
      NoBlockNoRun(pool, part, ord);
      return None;
    }

    // ----- Buddy::_free

    /** What is known while the block at b grows: it has order k and is on no list. Together with it there are `whole`
        free pages, and `others` are the other used blocks. */
    ghost predicate Growing(b: int, k: nat, whole: set<int>, others: map<int, nat>)
      reads this, index, head
    {
      && Shape() && State(pool, Memory(), part, lists, {b})
      && b in part && part[b] == Block(k, false)
      && Joined(FreeSet(), b, part[b].ord, whole) && InUse() - {b} == others
    }

    /** The test of a buddy. The header it reads is that of a block. */
    method FreeBuddy(b: int, k: nat, ghost whole: set<int>, ghost others: map<int, nat>) returns (r: bool)
      requires Growing(b, k, whole, others) && k + 1 < pool.order
      ensures r <==> IsFree(part, Blocks.Buddy(b, k), k)
    {
      var buddy := Blocks.Buddy(b, k);
      if buddy < pool.min || buddy >= pool.max {
        assert buddy in part ==> Fits(pool, buddy, part[buddy].ord);
        return false;
      }
      BuddyIsLive(pool, part, b, k);
      BuddyFacts(b, k) by { assert Fits(pool, b, k); }
      assert Tagged(Memory(), part, buddy);
      BlockHasHeader(pool, Memory(), part, buddy);
      var h := Read(At(buddy));
      return h.tag == Free && h.ord == k;
    }

    method Merge(b: int, k: nat, ghost whole: set<int>, ghost others: map<int, nat>) returns (r: int)
      requires Growing(b, k, whole, others) && k + 1 < pool.order && IsFree(part, Blocks.Buddy(b, k), k)
      modifies this, index, head
      ensures Growing(r, k + 1, whole, others)
    {
      var buddy := Blocks.Buddy(b, k);
      ghost var t := Position(buddy, k, b);
      MergeState(pool, Memory(), part, lists, b, k, t);
      MergeFree(pool, part, b, k);
      MergeUsed(pool, part, b, k);
      Dequeue(buddy);
      r := if buddy < b then buddy else b;
      lists := lists[k := Dropped(lists[k], t)];
      part := Merged(part, b, k);
    }

    lemma Position(x: int, k: nat, b: int) returns (t: nat)
      requires Shape() && State(pool, Memory(), part, lists, {b}) && k < pool.order && IsFree(part, x, k)
      ensures t < |lists[k]| && lists[k][t] == x
    {
      assert Filed(Memory(), part, k, lists[k]);
      t :| t < |lists[k]| && lists[k][t] == x;
    }

    method File(b: int, k: nat, ghost whole: set<int>, ghost others: map<int, nat>)
      requires Growing(b, k, whole, others)
      requires k + 1 < pool.order ==> !IsFree(part, Blocks.Buddy(b, k), k)
      modifies this, index, head
      ensures Valid() && FreeSet() == whole && InUse() == others
    {
      FileState(pool, Memory(), part, lists, b, k);
      RetagFreed(pool, part, b, k);
      Mark(b, k, Free);
      Enqueue(k, b);
      lists := lists[k := [b] + lists[k]];
      part := Retag(part, b, true);
    }

    /** Buddy::_free. Its callers pass the address of a block in use. */
    method Release(b: int, quota: Quotas.Quota)
      requires Valid() && b in InUse()
      modifies this, index, head, quota
      ensures Valid()
      ensures FreeSet() == old(FreeSet()) + Span(b, old(InUse())[b]) && InUse() == old(InUse()) - {b}
      ensures quota.View() == Quotas.Refunded(old(quota.View()), Pow2(old(InUse())[b]))
    {
      BlockHasHeader(pool, Memory(), part, b);
      assert Tagged(Memory(), part, b);
      var k := Read(At(b)).ord;
      quota.Free(Pow2(k));
      var block := b;
      ghost var whole, others := FreeSet() + Span(b, k), InUse() - {b};
      while k + 1 < pool.order
        invariant Growing(block, k, whole, others)
        invariant quota.View() == Quotas.Refunded(old(quota.View()), Pow2(old(InUse())[b]))
      {
        var merge := FreeBuddy(block, k, whole, others);
        if !merge { break; }
        block := Merge(block, k, whole, others);
        k := k + 1;
      }
      File(block, k, whole, others);
    }

    // ----- whole-pool properties

    /** In every valid state list k holds exactly the maximal aligned runs of 2^k free pages. */
    lemma ListsAreMaximalRuns(i: int, k: nat)
      requires Valid() && k < pool.order
      ensures i in lists[k] <==> Maximal(pool, FreeSet(), i, k)
    {
      assert Filed(Memory(), part, k, lists[k]);
      Canonical(pool, part, i, k);
    }

    /** Giving back what was allocated restores the free lists as sets, and the quota's balance. */
    method AllocAndRelease(ord: nat, quota: Quotas.Quota) returns (r: Option<int>)
      requires Valid()
      modifies this, index, head, quota
      ensures Valid() && FreeSet() == old(FreeSet()) && InUse() == old(InUse())
      ensures forall i, k | 0 <= k < pool.order :: i in lists[k] <==> i in old(lists)[k]
      ensures Quotas.Balance(quota.View()) == old(Quotas.Balance(quota.View()))
    {
      ghost var p, m := part, Memory();
      r := Alloc(ord, quota);
      if r.Some? {
        TakeBack(old(InUse()), r.value, ord);
        Release(r.value, quota);
      }
      SameFreePages(pool, p, part);
      SameLists(pool, m, p, old(lists), Memory(), part, lists);
    }
  }

  lemma TakeBack(used: map<int, nat>, b: int, k: nat)
    requires b !in used
    ensures used[b := k] - {b} == used
  {
  }

  /** Lists that hold the same free blocks are the same sets. */
  lemma SameLists(pool: Pool, m: Mem, p: Part, lists: seq<seq<int>>, m': Mem, p': Part, lists': seq<seq<int>>)
    requires |lists| == |lists'| == pool.order
    requires forall k: nat | k < pool.order :: Filed(m, p, k, lists[k]) && Filed(m', p', k, lists'[k])
    requires forall i, k: nat | k < pool.order :: IsFree(p, i, k) <==> IsFree(p', i, k)
    ensures forall i, k | 0 <= k < pool.order :: i in lists'[k] <==> i in lists[k]
  {
    forall i, k: nat | k < pool.order ensures i in lists'[k] <==> i in lists[k] {
      assert Filed(m, p, k, lists[k]) && Filed(m', p', k, lists'[k]);
    }
  }

  // ----- the layout computed by the constructor

  /** Two pointers and two 16-bit fields, padded to the pointer size. */
  const HEADER: nat := 24

  /** The number of orders for a pool of `size` bytes. */
  function Orders(size: nat): int
    requires size > 0
  {
    Msb(size) + 1 - PAGE_BITS
  }

  /** The bytes below the list heads. */
  function BelowHeads(size: nat): int
    requires size > 0
  {
    size - Orders(size) * HEADER
  }

  /** The bytes of the pages that are managed; their headers are stored above them. */
  function Managed(rest: int): int { (rest - rest / (PAGE + HEADER) * HEADER) / PAGE * PAGE }

  /** The headers of all managed pages end below the list heads exactly when the remainder of the division in the
      constructor leaves no room for one more page. */
  lemma HeadersFit(size: nat)
    requires size > 0
    ensures var rest := BelowHeads(size);
            Managed(rest) + Managed(rest) / PAGE * HEADER <= rest <==> rest % (PAGE + HEADER) < PAGE
  {
    ManagedPages(BelowHeads(size));
  }

  /** The number of managed pages. */
  lemma ManagedPages(rest: int)
    ensures var q, r := rest / (PAGE + HEADER), rest % (PAGE + HEADER);
            var k := if r < PAGE then q else q + 1;
            rest == q * (PAGE + HEADER) + r && Managed(rest) == k * PAGE && Managed(rest) / PAGE == k
  {
    var q, r := rest / (PAGE + HEADER), rest % (PAGE + HEADER);
    var k := if r < PAGE then q else q + 1;
    DivUnique(q * PAGE + r, PAGE, k);
    DivUnique(k * PAGE, PAGE, k);
  }

  /** A pool of 164 pages is one for which they do not fit. */
  lemma HeadersOverlap()
    ensures var rest := BelowHeads(164 * PAGE);
            rest > 0 && Managed(rest) + Managed(rest) / PAGE * HEADER > rest
  {
    assert Pow2(10) == 1024 && Pow2(9) == 512;
    Pow2Add(10, 9);
    Pow2Add(10, 10);
    MsbUnique(164 * PAGE, 19);
  }

  lemma AlignUpAligned(v: nat, k: nat)
    ensures Aligned(AlignUp(v, Pow2(k)), k)
  {
    AlignedMultiple((v + Pow2(k) - 1) / Pow2(k), k);
  }

  lemma ScaledAligned(i: int, k: nat, s: nat)
    requires Aligned(i, k)
    ensures Aligned(i * Pow2(s), k + s)
  {
    var q := i / Pow2(k);
    DivBounds(i, Pow2(k));
    assert i * Pow2(s) == q * Pow2(k + s) by {
      Pow2Add(s, k);
      Regroup(q, Pow2(s), Pow2(k));
    }
    AlignedMultiple(q, k + s);
  }

  /** Blocks are aligned from a base that is itself aligned to the largest block, so that every block is physically
      aligned to its size. */
  lemma PhysicallyAligned(pool: Pool, phys: nat, size: nat, i: int, k: nat)
    requires size >= PAGE && pool.order == Orders(size) && Fits(pool, i, k)
    ensures Aligned(AlignUp(phys, Pow2(Msb(size))) + i * PAGE, k + PAGE_BITS)
  {
    var base := AlignUp(phys, Pow2(Msb(size)));
    assert Pow2(PAGE_BITS) == PAGE;
    AlignUpAligned(phys, Msb(size));
    AlignedFiner(base, k + PAGE_BITS, Msb(size));
    ScaledAligned(i, k, PAGE_BITS);
    AlignedAdd(base, i * PAGE, k + PAGE_BITS);
  }
}
