/** Ordered sequences of disjoint aligned ranges: what the AVL tree of a space means, independent of its shape
    (include/mdb.hpp, include/space.hpp). */
module Ranges {
  import opened Bits

  /** A range of 2^order addresses; `id` names the node that carries it. */
  datatype Entry = Entry(base: nat, order: nat, id: nat)

  function Top(e: Entry): nat { e.base + Pow2(e.order) }

  predicate Holds(e: Entry, addr: int) { InRange(addr, e.base, e.order) }

  predicate Wf(e: Entry) { Aligned(e.base, e.order) }

  predicate Overlaps(a: Entry, b: Entry) { a.base < Top(b) && b.base < Top(a) }

  /** The comparisons `Mdb::equal` and `Mdb::larger`. */
  predicate Equal(a: Entry, b: Entry) { SameBlock(a.base, a.order, b.base, b.order) }

  predicate Larger(a: Entry, b: Entry) { a.base > b.base }

  lemma EqualIsOverlap(a: Entry, b: Entry)
    requires Wf(a) && Wf(b)
    ensures Equal(a, b) <==> Overlaps(a, b)
  {
    SameBlockIsOverlap(a.base, a.order, b.base, b.order);
  }

  /** Aligned, disjoint and in ascending order. */
  predicate Ordered(s: seq<Entry>) {
    && (forall i :: 0 <= i < |s| ==> Wf(s[i]))
    && (forall i, j :: 0 <= i < j < |s| ==> Top(s[i]) <= s[j].base)
  }

  predicate AllBelow(s: seq<Entry>, e: Entry) { forall i :: 0 <= i < |s| ==> Top(s[i]) <= e.base }

  predicate AllAbove(s: seq<Entry>, e: Entry) { forall i :: 0 <= i < |s| ==> Top(e) <= s[i].base }

  predicate Free(s: seq<Entry>, e: Entry) { forall i :: 0 <= i < |s| ==> !Overlaps(s[i], e) }

  /** The meaning of `Avl::insert` when it succeeds. */
  function InsertAt(s: seq<Entry>, e: Entry): seq<Entry> {
    if s == [] then [e]
    else if Larger(e, s[0]) then [s[0]] + InsertAt(s[1..], e)
    else [e] + s
  }

  /** The meaning of `Avl::remove` when it succeeds. */
  function RemoveFrom(s: seq<Entry>, e: Entry): seq<Entry> {
    if s == [] then [] else if s[0] == e then s[1..] else [s[0]] + RemoveFrom(s[1..], e)
  }

  datatype Found = None | Some(e: Entry)

  /** The meaning of `Mdb::lookup`: the range that holds addr, or else, if `next`, the first one above it. */
  function LookupIn(s: seq<Entry>, addr: nat, next: bool): Found {
    if s == [] then None
    else if Holds(s[0], addr) then Some(s[0])
    else if s[0].base > addr then (if next then Some(s[0]) else None)
    else LookupIn(s[1..], addr, next)
  }

  lemma {:induction false} InsertSplit(l: seq<Entry>, r: seq<Entry>, e: Entry)
    requires AllBelow(l, e) && AllAbove(r, e)
    ensures InsertAt(l + r, e) == l + [e] + r
  {
    if l == [] {
      assert l + r == r && l + [e] + r == [e] + r;
      if r != [] { assert Top(e) <= r[0].base; }
    } else {
      assert Top(l[0]) <= e.base;
      InsertSplit(l[1..], r, e);
      assert (l + r)[1..] == l[1..] + r;
      assert l + [e] + r == [l[0]] + (l[1..] + [e] + r);
    }
  }

  lemma {:induction false} RemoveSplit(l: seq<Entry>, r: seq<Entry>, e: Entry)
    requires e !in l
    ensures RemoveFrom(l + [e] + r, e) == l + r
  {
    var s := l + [e] + r;
    if l == [] {
      assert s[0] == e && s[1..] == r && l + r == r;
    } else {
      assert s[0] == l[0] && s[1..] == l[1..] + [e] + r;
      RemoveSplit(l[1..], r, e);
      assert l + r == [l[0]] + (l[1..] + r);
    }
  }

  lemma {:induction false} LookupAbove(s: seq<Entry>, addr: nat, next: bool)
    requires forall i :: 0 <= i < |s| ==> addr < s[i].base
    ensures LookupIn(s, addr, next) == if next && s != [] then Some(s[0]) else None
  {
  }

  lemma {:induction false} LookupSplit(l: seq<Entry>, r: seq<Entry>, addr: nat, next: bool)
    requires forall i :: 0 <= i < |l| ==> Top(l[i]) <= addr
    ensures LookupIn(l + r, addr, next) == LookupIn(r, addr, next)
  {
    if l == [] {
      assert l + r == r;
    } else {
      assert Top(l[0]) <= addr;
      LookupSplit(l[1..], r, addr, next);
      assert (l + r)[1..] == l[1..] + r;
    }
  }

  /** Insertion and removal undo each other. */
  lemma {:induction false} InsertThenRemove(s: seq<Entry>, e: Entry)
    requires e !in s
    ensures RemoveFrom(InsertAt(s, e), e) == s
  {
    if s != [] && Larger(e, s[0]) {
      InsertThenRemove(s[1..], e);
      assert InsertAt(s, e)[0] == s[0] && InsertAt(s, e)[1..] == InsertAt(s[1..], e);
    } else {
      assert InsertAt(s, e)[1..] == s;
    }
  }

  /** What a lookup promises to its callers. */
  lemma {:induction false} LookupMeaning(s: seq<Entry>, addr: nat, next: bool)
    requires Ordered(s)
    ensures var r := LookupIn(s, addr, next);
            && (r.None? ==> forall i :: 0 <= i < |s| ==> !Holds(s[i], addr) && (next ==> Top(s[i]) <= addr))
            && (r.Some? ==> r.e in s && (Holds(r.e, addr) || (next && addr < r.e.base)))
            && (r.Some? && !Holds(r.e, addr) ==>
                  forall i :: 0 <= i < |s| ==> Top(s[i]) <= addr || r.e.base <= s[i].base)
  {
    if s != [] && !Holds(s[0], addr) && s[0].base <= addr {
      assert Ordered(s[1..]) by {
        forall i, j | 0 <= i < j < |s| - 1
          ensures Top(s[1..][i]) <= s[1..][j].base
        { assert Top(s[i + 1]) <= s[j + 1].base; }
      }
      LookupMeaning(s[1..], addr, next);
      var r := LookupIn(s, addr, next);
      forall i | 0 <= i < |s|
        ensures r.None? ==> !Holds(s[i], addr) && (next ==> Top(s[i]) <= addr)
        ensures r.Some? && !Holds(r.e, addr) ==> Top(s[i]) <= addr || r.e.base <= s[i].base
      {
        if i > 0 { assert s[i] == s[1..][i - 1]; }
      }
    } else if s != [] {
      forall i | 0 <= i < |s|
        ensures s[0].base <= s[i].base
      { if i > 0 { assert Top(s[0]) <= s[i].base; } }
    }
  }

  lemma {:induction false} InsertMembers(s: seq<Entry>, e: Entry)
    ensures forall x :: x in InsertAt(s, e) <==> x in s || x == e
  {
    if s != [] && Larger(e, s[0]) {
      InsertMembers(s[1..], e);
      assert s == [s[0]] + s[1..];
    }
  }

  lemma {:induction false} RemoveMembers(s: seq<Entry>, e: Entry)
    requires Ordered(s)
    ensures forall x :: x in RemoveFrom(s, e) <==> x in s && x != e
  {
    if s != [] {
      TailOrdered(s);
      assert s == [s[0]] + s[1..];
      if s[0] == e {
        assert forall i :: 0 < i < |s| ==> Top(s[0]) <= s[i].base;
      } else {
        RemoveMembers(s[1..], e);
      }
    }
  }

  lemma TailOrdered(s: seq<Entry>)
    requires Ordered(s) && s != []
    ensures Ordered(s[1..])
  {
    forall i, j | 0 <= i < j < |s| - 1
      ensures Top(s[1..][i]) <= s[1..][j].base
    { assert Top(s[i + 1]) <= s[j + 1].base; }
  }

  lemma {:induction false} InsertKeepsOrder(s: seq<Entry>, e: Entry)
    requires Ordered(s) && Wf(e) && Free(s, e)
    ensures Ordered(InsertAt(s, e))
  {
    if s != [] {
      TailOrdered(s);
      assert !Overlaps(s[0], e);
      if Larger(e, s[0]) {
        forall i | 0 <= i < |s[1..]|
          ensures !Overlaps(s[1..][i], e)
        { assert !Overlaps(s[i + 1], e); }
        InsertKeepsOrder(s[1..], e);
        InsertMembers(s[1..], e);
        ConsOrdered(s[0], InsertAt(s[1..], e));
      } else {
        forall i | 0 <= i < |s|
          ensures Top(e) <= s[i].base
        { if i > 0 { assert Top(s[0]) <= s[i].base; } }
        ConsOrdered(e, s);
      }
    }
  }

  lemma ConsOrdered(e: Entry, s: seq<Entry>)
    requires Ordered(s) && Wf(e) && forall x :: x in s ==> Top(e) <= x.base
    ensures Ordered([e] + s)
  {
    var t := [e] + s;
    forall i, j | 0 <= i < j < |t|
      ensures Top(t[i]) <= t[j].base
    {
      assert t[j] == s[j - 1];
      if i > 0 { assert t[i] == s[i - 1]; }
    }
  }

  lemma {:induction false} RemoveKeepsOrder(s: seq<Entry>, e: Entry)
    requires Ordered(s)
    ensures Ordered(RemoveFrom(s, e))
  {
    if s != [] {
      TailOrdered(s);
      if s[0] != e {
        RemoveKeepsOrder(s[1..], e);
        RemoveMembers(s[1..], e);
        ConsOrdered(s[0], RemoveFrom(s[1..], e));
      }
    }
  }

  /** One range more. */
  lemma {:induction false} LookupInserted(s: seq<Entry>, e: Entry, addr: nat)
    requires Ordered(s) && Wf(e) && Free(s, e)
    ensures LookupIn(InsertAt(s, e), addr, false) == if Holds(e, addr) then Some(e) else LookupIn(s, addr, false)
  {
    if s != [] {
      TailOrdered(s);
      assert !Overlaps(s[0], e);
      if Larger(e, s[0]) {
        forall i | 0 <= i < |s[1..]|
          ensures !Overlaps(s[1..][i], e)
        { assert !Overlaps(s[i + 1], e); }
        LookupInserted(s[1..], e, addr);
        assert InsertAt(s, e)[1..] == InsertAt(s[1..], e);
      } else {
        assert InsertAt(s, e)[1..] == s;
        if addr < s[0].base { LookupBelow(s, addr); }
      }
    }
  }

  lemma LookupBelow(s: seq<Entry>, addr: nat)
    requires Ordered(s) && s != [] && addr < s[0].base
    ensures LookupIn(s, addr, false) == None
  {
  }
}
