/** Pd::revoke (src/pd.cpp:133-226) without the keep-in-mdb option: the two passes over a derivation list and the
    walk over the nodes that overlap the window. */
module Revocation {
  import opened Lists
  import opened Bits
  import opened Ranges
  import opened Derivation
  import opened MappingDb

  // ----- which nodes a revocation hits

  /** Pd::clamp succeeds on the frames of n and the frames [p, p + 2^o). */
  predicate Meets(k: Kin, n: Id, p: nat, o: nat) {
    n in k.info && SameBlock(k.info[n].phys, k.info[n].order, p, o)
  }

  /** Without `self`: n is in the subtree of a direct child of m whose frames meet the window. */
  ghost predicate BelowChild(k: Kin, m: Id, p: nat, o: nat, n: Id)
    decreases Rank(k, n)
  {
    n != m && HasUp(k, n) && (if k.prnt[n] == m then Meets(k, n, p, o) else BelowChild(k, m, p, o, k.prnt[n]))
  }

  ghost predicate Hit(k: Kin, m: Id, p: nat, o: nat, self: bool, n: Id) {
    if self then Meets(k, m, p, o) && Derived(k, m, n) else BelowChild(k, m, p, o, n)
  }

  lemma {:induction false} DerivedTrans(k: Kin, a: Id, b: Id, n: Id)
    requires Derived(k, a, b) && Derived(k, b, n)
    ensures Derived(k, a, n)
    decreases Rank(k, n)
  {
    if n != b { DerivedTrans(k, a, b, k.prnt[n]); }
  }

  lemma {:induction false} DerivedRank(k: Kin, a: Id, n: Id)
    requires Derived(k, a, n)
    ensures n == a || Rank(k, a) < Rank(k, n)
    decreases Rank(k, n)
  {
    if n != a { DerivedRank(k, a, k.prnt[n]); }
  }

  /** Membership in the subtree of a chosen child, stated without recursion. */
  lemma {:induction false} BelowChildMeaning(k: Kin, m: Id, p: nat, o: nat, n: Id)
    ensures BelowChild(k, m, p, o, n) <==>
      exists c :: HasUp(k, c) && k.prnt[c] == m && Meets(k, c, p, o) && Derived(k, c, n)
    decreases Rank(k, n)
  {
    if BelowChild(k, m, p, o, n) {
      if k.prnt[n] == m {
        assert Derived(k, n, n);
      } else {
        BelowChildMeaning(k, m, p, o, k.prnt[n]);
        var c :| HasUp(k, c) && k.prnt[c] == m && Meets(k, c, p, o) && Derived(k, c, k.prnt[n]);
        assert Derived(k, c, n);
      }
    }
    if exists c :: HasUp(k, c) && k.prnt[c] == m && Meets(k, c, p, o) && Derived(k, c, n) {
      var c :| HasUp(k, c) && k.prnt[c] == m && Meets(k, c, p, o) && Derived(k, c, n);
      DerivedRank(k, c, n);
      if n != c {
        BelowChildMeaning(k, m, p, o, k.prnt[n]);
        DerivedRank(k, c, k.prnt[n]);
      }
    }
  }

  lemma {:induction false} BelowIsDerived(k: Kin, m: Id, p: nat, o: nat, n: Id)
    requires BelowChild(k, m, p, o, n)
    ensures Derived(k, m, n)
    decreases Rank(k, n)
  {
    if k.prnt[n] != m { BelowIsDerived(k, m, p, o, k.prnt[n]); } else { assert Derived(k, m, m); }
  }

  /** All of a subtree below m shares one fate. */
  lemma {:induction false} SameFate(k: Kin, m: Id, p: nat, o: nat, x: Id, n: Id)
    requires Derived(k, x, n) && x != m && Derived(k, m, x)
    ensures n != m && (BelowChild(k, m, p, o, n) <==> BelowChild(k, m, p, o, x))
    decreases Rank(k, n)
  {
    DerivedRank(k, m, x);
    DerivedRank(k, x, n);
    if n != x {
      SameFate(k, m, p, o, x, k.prnt[n]);
      assert k.prnt[n] != m;
    }
  }

  /** A hit passes from parent to child. */
  lemma HitInherited(k: Kin, m: Id, p: nat, o: nat, self: bool, n: Id)
    requires HasUp(k, n) && Hit(k, m, p, o, self, k.prnt[n])
    ensures Hit(k, m, p, o, self, n)
  {
    if !self {
      BelowIsDerived(k, m, p, o, k.prnt[n]);
      assert Derived(k, k.prnt[n], n) by { assert Derived(k, k.prnt[n], k.prnt[n]); }
      SameFate(k, m, p, o, k.prnt[n], n);
    }
  }

  // ----- the first pass: demotion

  /** The rights of every node after the nodes of l[i..k] that are hit have lost a. */
  ghost predicate Demoted(db0: Db, db: Db, l: seq<Id>, i: nat, k: nat, m: Id, p: nat, o: nat, self: bool, a: Rights) {
    && db.links == db0.links && db.tree == db0.tree
    && forall n :: Attr(db, n) ==
         if InSlice(l, i, k, n) && Hit(KinOf(db0.links), m, p, o, self, n) then Attr(db0, n) - a else Attr(db0, n)
  }

  ghost predicate InSlice(l: seq<Id>, i: int, k: int, n: Id) { exists j :: 0 <= i <= j < k <= |l| && l[j] == n }

  lemma SliceGrows(l: seq<Id>, i: nat, k: nat)
    requires Distinct(l) && i <= k < |l|
    ensures !InSlice(l, i, k, l[k])
    ensures forall n :: InSlice(l, i, k + 1, n) <==> InSlice(l, i, k, n) || n == l[k]
  {
    forall n
      ensures InSlice(l, i, k + 1, n) <==> InSlice(l, i, k, n) || n == l[k]
    {
      if InSlice(l, i, k, n) {
        var j :| 0 <= i <= j < k <= |l| && l[j] == n;
        assert 0 <= i <= j < k + 1 <= |l| && l[j] == n;
      }
      if n == l[k] { assert 0 <= i <= k < k + 1 <= |l| && l[k] == n; }
    }
  }

  lemma NothingLost(s: Rights, a: Rights)
    requires s * a == {}
    ensures s - a == s
  {
    forall x | x in s
      ensures x in s - a
    { assert x in a ==> x in s * a; }
  }

  /** Demoting the current node, or leaving it alone, extends the demoted part of the list by one. */
  lemma DemoteStep(db0: Db, db: Db, l: seq<Id>, i: nat, k: nat, m: Id, p: nat, o: nat, self: bool, a: Rights)
    requires Distinct(l) && i <= k < |l| && Demoted(db0, db, l, i, k, m, p, o, self, a)
    ensures Attr(db, l[k]) == Attr(db0, l[k])
    ensures var hit := Hit(KinOf(db0.links), m, p, o, self, l[k]);
            Demoted(db0, DemotedNode(db, l[k], a, hit), l, i, k + 1, m, p, o, self, a)
  {
    SliceGrows(l, i, k);
    assert Attr(db, l[k]) == Attr(db0, l[k]);
    var db' := db.(attr := db.attr[l[k] := Attr(db, l[k]) - a]);
    assert forall n :: n != l[k] ==> Attr(db', n) == Attr(db, n);
    if Attr(db, l[k]) * a == {} { NothingLost(Attr(db, l[k]), a); }
  }

  /** Mdb::demote_node, where there is anything to take away. */
  function DemotedNode(db: Db, n: Id, a: Rights, demote: bool): Db {
    if demote && Attr(db, n) * a != {} then db.(attr := db.attr[n := Attr(db, n) - a]) else db
  }

  /** The walk along the list keeps the flag `demote` equal to the fate of the current node. */
  lemma FateAlongList(s: Links, l: seq<Id>, i: nat, k: nat, p: nat, o: nat)
    requires Circle(s, l) && Preorder(s, l) && i < k < |l| && Run(s, l, i, k)
    ensures l[k] in s.prnt && Derived(KinOf(s), l[i], l[k]) && l[k] != l[i]
    ensures s.prnt[l[k]] == l[i] ==>
      (BelowChild(KinOf(s), l[i], p, o, l[k]) <==> Meets(KinOf(s), l[k], p, o))
    ensures s.prnt[l[k]] != l[i] ==>
      (BelowChild(KinOf(s), l[i], p, o, l[k]) <==> BelowChild(KinOf(s), l[i], p, o, l[k - 1]))
  {
    var kin := KinOf(s);
    RunIsDerived(s, l, i, k);
    assert l[i] != l[k];
    assert HasParent(s, l, k) && Linked(s, l, k);
    var j :| IsParent(s, l, j, k);
    assert Linked(s, l, j);
    assert HasUp(kin, l[k]);
    if l[j] != l[i] {
      RunThroughParent(s, l, i, j, k);
      RunIsDerived(s, l, i, j);
      assert Derived(kin, l[j], l[j]) && Derived(kin, l[j], l[k]);
      SameFate(kin, l[i], p, o, l[j], l[k]);
      assert Run(s, l, j, k - 1);
      RunIsDerived(s, l, j, k - 1);
      SameFate(kin, l[i], p, o, l[j], l[k - 1]);
    }
  }

  method DemotePass(d: Database, m: Id, p: nat, o: nat, a: Rights, self: bool, ghost l: seq<Id>, ghost i: nat)
    returns (node: Id, ghost e: nat)
    requires Circle(d.db.links, l) && Preorder(d.db.links, l) && i < |l| && l[i] == m
    modifies d`db
    ensures Run(d.db.links, l, i, e) && node == l[e]
    ensures e + 1 < |l| ==> Depth(d.db.links, l[e + 1]) <= Depth(d.db.links, m)
    ensures Demoted(old(d.db), d.db, l, i, e + 1, m, p, o, self, a)
  {
    ghost var db0 := d.db;
    node := m;
    e := i;
    var dpth := Depth(d.db.links, m);
    var demote := self && Meets(KinOf(d.db.links), m, p, o);
    while true
      invariant Run(db0.links, l, i, e) && node == l[e]
      invariant demote <==> Hit(KinOf(db0.links), m, p, o, self, node)
      invariant Demoted(db0, d.db, l, i, e, m, p, o, self, a)
      decreases |l| - e
    {
      DemoteStep(db0, d.db, l, i, e, m, p, o, self, a);
      d.db := DemotedNode(d.db, node, a, demote);
      assert Linked(db0.links, l, e);
      var ptr := Next(d.db.links, node);
      if Depth(d.db.links, ptr) <= dpth { break; }
      if !self && ptr in d.db.links.prnt && d.db.links.prnt[ptr] == m {
        demote := Meets(KinOf(d.db.links), ptr, p, o);
      }
      assert Run(db0.links, l, i, e + 1) && ptr == l[e + 1];
      FateAlongList(db0.links, l, i, e + 1, p, o);
      RunIsDerived(db0.links, l, i, e);
      node := ptr;
      e := e + 1;
    }
  }

  // ----- the second pass: removal

  /** Mdb::remove_node as a leaf, then Space::tree_remove. */
  method RemoveLeaf(d: Database, n: Id, ghost r: Id, ghost k: nat) returns (gone: bool)
    requires Sound(d.db, d.th) && Confined(d.db, d.th)
    requires r in d.th.lists && k < |d.th.lists[r]| && d.th.lists[r][k] == n
    modifies d`db, d`th
    ensures Sound(d.db, d.th) && Confined(d.db, d.th)
    ensures gone <==>
      Attr(old(d.db), n) == {} && Depth(old(d.db).links, Next(old(d.db).links, n)) <= Depth(old(d.db).links, n)
    ensures !gone ==> d.db == old(d.db) && d.th == old(d.th)
    ensures gone ==> d.db == Drop(old(d.db), n) && d.th == DropFromThreads(old(d.th), r, k)
  {
    var s := d.db.links;
    if Attr(d.db, n) != {} { return false; }
    assert ListOk(d.db, d.th, r);
    ghost var l := d.th.lists[r];
    assert Linked(s, l, k) && Linked(s, l, Up(|l|, k)) && Linked(s, l, Down(|l|, k));
    var alive := Next(s, Prev(s, n)) == n && Prev(s, Next(s, n)) == n;
    if !alive || Depth(s, Next(s, n)) > Depth(s, n) { return false; }
    DropSound(d.db, d.th, r, k);
    d.th := DropFromThreads(d.th, r, k);
    d.db := Drop(d.db, n);
    return true;
  }

  /** A node without rights whose list successors all have rights has no children. */
  lemma EmptyIsLeaf(db: Db, th: Threads, r: Id, k: nat)
    requires Sound(db, th) && Confined(db, th) && r in th.lists && k < |th.lists[r]|
    requires Attr(db, th.lists[r][k]) == {}
    requires k + 1 < |th.lists[r]| ==> Attr(db, th.lists[r][k + 1]) != {}
    ensures Depth(db.links, Next(db.links, th.lists[r][k])) <= Depth(db.links, th.lists[r][k])
  {
    var l, s := th.lists[r], db.links;
    assert ListOk(db, th, r) && Linked(s, l, k);
    if k + 1 < |l| {
      assert HasParent(s, l, k + 1);
      var j :| IsParent(s, l, j, k + 1);
      assert Live(th, l[k + 1]) && RightsOk(db, l[k + 1]);
    }
  }

  /** The live nodes once those of l[k..e] without rights are gone. */
  ghost predicate Swept(db: Db, th0: Threads, th: Threads, l: seq<Id>, k: int, e: int) {
    forall n :: Live(th, n) <==> Live(th0, n) && !(InSlice(l, k, e, n) && Attr(db, n) == {})
  }

  /** What the loop of the second pass knows when it looks at node l[k]. */
  ghost predicate Sweeping(db0: Db, db: Db, th0: Threads, th: Threads, r: Id, l: seq<Id>, i: nat, k: nat, e: nat) {
    && Sound(db, th) && Confined(db, th) && KinOf(db.links) == KinOf(db0.links) && db.attr == db0.attr
    && r in th.lists && i <= k < e <= |l| && k < |th.lists[r]| && th.lists[r][..k + 1] == l[..k + 1]
    && Swept(db0, th0, th, l, k + 1, e)
    && (forall n :: Live(th0, n) ==> Attr(db0, n) != {} || InSlice(l, i, e, n))
  }

  lemma SweepingLeaf(db0: Db, db: Db, th0: Threads, th: Threads, r: Id, l: seq<Id>, i: nat, k: nat, e: nat)
    requires Sweeping(db0, db, th0, th, r, l, i, k, e)
    ensures th.lists[r][k] == l[k]
    ensures Attr(db, l[k]) == {} ==> Depth(db.links, Next(db.links, l[k])) <= Depth(db.links, l[k])
  {
    var c := th.lists[r];
    assert c[k] == c[..k + 1][k] == l[k];
    assert ListOk(db, th, r);
    if k + 1 < |c| {
      var n := c[k + 1];
      assert Live(th, n);
      forall j | 0 <= j <= k
        ensures l[j] != n
      { assert c[j] == c[..k + 1][j] == l[j]; }
      if InSlice(l, i, e, n) {
        var j :| 0 <= i <= j < e <= |l| && l[j] == n;
        assert 0 <= k + 1 <= j < e <= |l| && l[j] == n;
      }
      assert Attr(db, n) == Attr(db0, n) != {};
    }
    if Attr(db, l[k]) == {} { EmptyIsLeaf(db, th, r, k); }
  }

  /** After the look at l[k]: it is gone exactly when it had no rights left. */
  lemma SweepingStep(db0: Db, db: Db, th0: Threads, th: Threads, r: Id, l: seq<Id>, i: nat, k: nat, e: nat, gone: bool)
    requires Sweeping(db0, db, th0, th, r, l, i, k, e) && (gone <==> Attr(db, l[k]) == {}) && th.lists[r][k] == l[k]
    ensures Swept(db0, th0, if gone then DropFromThreads(th, r, k) else th, l, k, e)
  {
    var th' := if gone then DropFromThreads(th, r, k) else th;
    forall n
      ensures Live(th', n) <==> Live(th0, n) && !(InSlice(l, k, e, n) && Attr(db0, n) == {})
    {
      assert Live(th, n) <==> Live(th0, n) && !(InSlice(l, k + 1, e, n) && Attr(db0, n) == {});
      SliceFront(l, k, e, n);
      assert ListOk(db, th, r) && Live(th, l[k]);
    }
  }

  lemma SliceFront(l: seq<Id>, k: nat, e: nat, n: Id)
    requires k < e <= |l|
    ensures InSlice(l, k, e, n) <==> n == l[k] || InSlice(l, k + 1, e, n)
  {
    if n == l[k] { assert 0 <= k <= k < e <= |l| && l[k] == n; }
    if InSlice(l, k + 1, e, n) {
      var j :| 0 <= k + 1 <= j < e <= |l| && l[j] == n;
      assert 0 <= k <= j < e <= |l| && l[j] == n;
    }
    if InSlice(l, k, e, n) && n != l[k] {
      var j :| 0 <= k <= j < e <= |l| && l[j] == n;
      assert 0 <= k + 1 <= j < e <= |l| && l[j] == n;
    }
  }

  method SweepPass(d: Database, m: Id, last: Id, ghost r: Id, ghost l: seq<Id>, ghost i: nat, ghost e: nat)
    requires Sound(d.db, d.th) && Confined(d.db, d.th) && r in d.th.lists && d.th.lists[r] == l
    requires Run(d.db.links, l, i, e) && l[i] == m && l[e] == last
    requires forall n :: Live(d.th, n) ==> Attr(d.db, n) != {} || InSlice(l, i, e + 1, n)
    modifies d`db, d`th
    ensures Inv(d.db, d.th) && KinOf(d.db.links) == KinOf(old(d.db).links) && d.db.attr == old(d.db).attr
    ensures Swept(old(d.db), old(d.th), d.th, l, i, e + 1)
  {
    ghost var db0, th0 := d.db, d.th;
    var node := last;
    var dpth := Depth(d.db.links, m);
    ghost var k := e;
    SweepStart(db0, th0, r, l, i, e);
    while true
      invariant i <= k <= e < |l| && node == l[k]
      invariant Sweeping(db0, d.db, th0, d.th, r, l, i, k, e + 1)
      decreases k
    {
      RunEdge(db0.links, l, i, e, k);
      ghost var k';
      var ptr;
      ptr, k' := SweepOne(d, node, db0, th0, r, l, i, k, e + 1);
      assert Depth(d.db.links, node) == Depth(db0.links, l[k]);
      if Depth(d.db.links, node) <= dpth { break; }
      node, k := ptr, k';
    }
    assert k == i;
    SweepEnd(db0, d.db, th0, d.th, l, i, e + 1);
  }

  lemma RunEdge(s: Links, l: seq<Id>, i: nat, e: nat, k: nat)
    requires Run(s, l, i, e) && i <= k <= e
    ensures Depth(s, l[k]) <= Depth(s, l[i]) <==> k == i
  {
  }

  lemma SweepStart(db: Db, th: Threads, r: Id, l: seq<Id>, i: nat, e: nat)
    requires Sound(db, th) && Confined(db, th) && r in th.lists && th.lists[r] == l && i <= e < |l|
    requires forall n :: Live(th, n) ==> Attr(db, n) != {} || InSlice(l, i, e + 1, n)
    ensures Sweeping(db, db, th, th, r, l, i, e, e + 1)
  {
  }

  lemma SweepEnd(db0: Db, db: Db, th0: Threads, th: Threads, l: seq<Id>, i: nat, e: nat)
    requires Sound(db, th) && Confined(db, th) && db.attr == db0.attr && Swept(db0, th0, th, l, i, e)
    requires forall n :: Live(th0, n) ==> Attr(db0, n) != {} || InSlice(l, i, e, n)
    ensures Inv(db, th)
  {
    forall n | Live(th, n)
      ensures Attr(db, n) != {}
    { assert Live(th0, n); }
  }

  /** One node of the second pass. */
  method SweepOne(d: Database, node: Id, ghost db0: Db, ghost th0: Threads, ghost r: Id, ghost l: seq<Id>,
                  ghost i: nat, ghost k: nat, ghost e: nat)
    returns (ptr: Id, ghost k': nat)
    requires Sweeping(db0, d.db, th0, d.th, r, l, i, k, e) && node == l[k]
    modifies d`db, d`th
    ensures Sound(d.db, d.th) && Confined(d.db, d.th) && KinOf(d.db.links) == KinOf(db0.links) && d.db.attr == db0.attr
    ensures Swept(db0, th0, d.th, l, k, e)
    ensures k > i ==> k' == k - 1 && ptr == l[k'] && Sweeping(db0, d.db, th0, d.th, r, l, i, k', e)
  {
    SweepingLeaf(db0, d.db, th0, d.th, r, l, i, k, e);
    assert ListOk(d.db, d.th, r) && Linked(d.db.links, d.th.lists[r], k);
    ghost var c := d.th.lists[r];
    SweepingStep(db0, d.db, th0, d.th, r, l, i, k, e, Attr(d.db, node) == {});
    if k > i { SweepingOn(c, l, k); }
    var gone := RemoveLeaf(d, node, r, k);
    ptr := Prev(d.db.links, node);
    k' := if k > i then k - 1 else k;
  }

  lemma SweepingOn(c: seq<Id>, l: seq<Id>, k: nat)
    requires 0 < k < |c| && k < |l| && c[..k + 1] == l[..k + 1]
    ensures c[..k] == l[..k] && c[k - 1] == l[k - 1] && Dropped(c, k)[..k] == l[..k]
  {
    assert c[..k] == c[..k + 1][..k] && l[..k] == l[..k + 1][..k];
    assert c[k - 1] == c[..k][k - 1] && l[k - 1] == l[..k][k - 1];
  }

  // ----- one node of the window

  lemma HitIsDerived(k: Kin, m: Id, p: nat, o: nat, self: bool, n: Id)
    requires Hit(k, m, p, o, self, n)
    ensures Derived(k, m, n)
  {
    if !self { BelowIsDerived(k, m, p, o, n); }
  }

  lemma {:induction false} DerivedSameList(db: Db, th: Threads, m: Id, n: Id)
    requires Threaded(db, th) && Live(th, n) && Derived(KinOf(db.links), m, n)
    ensures Live(th, m) && th.home[m] == th.home[n]
    decreases Depth(db.links, n)
  {
    ParentLive(db, th, n);
    if n != m { DerivedSameList(db, th, m, db.links.prnt[n]); }
  }

  /** The stretch of the list that the first pass walks is the subtree of m. */
  lemma SliceIsSubtree(db: Db, th: Threads, r: Id, i: nat, e: nat, n: Id)
    requires Threaded(db, th) && r in th.lists && Run(db.links, th.lists[r], i, e) && Live(th, n)
    requires e + 1 < |th.lists[r]| ==> Depth(db.links, th.lists[r][e + 1]) <= Depth(db.links, th.lists[r][i])
    ensures InSlice(th.lists[r], i, e + 1, n) <==> Derived(KinOf(db.links), th.lists[r][i], n)
  {
    var l := th.lists[r];
    assert ListOk(db, th, r);
    if InSlice(l, i, e + 1, n) {
      var j :| 0 <= i <= j < e + 1 <= |l| && l[j] == n;
      assert Run(db.links, l, i, j);
      RunIsDerived(db.links, l, i, j);
    }
    if Derived(KinOf(db.links), l[i], n) {
      DerivedSameList(db, th, l[i], n);
      assert AtHome(db, th, n);
      var j :| 0 <= j < |l| && l[j] == n;
      RunIsDerived(db.links, l, i, j);
      assert j <= e;
      assert 0 <= i <= j < e + 1 <= |l| && l[j] == n;
    }
  }

  /** The effect of revoking below (or, with self, including) one node. */
  ghost predicate Cut(db0: Db, th0: Threads, db: Db, th: Threads, m: Id, p: nat, o: nat, self: bool, a: Rights, n: Id) {
    var hit := Hit(KinOf(db0.links), m, p, o, self, n);
    && (Live(th, n) <==> Live(th0, n) && !(hit && Attr(db0, n) - a == {}))
    && (Live(th, n) ==> Attr(db, n) == if hit then Attr(db0, n) - a else Attr(db0, n))
  }

  /** After the first pass the rights are confined again, though some nodes may have none left. */
  lemma DemotedConfined(db0: Db, db: Db, th: Threads, r: Id, i: nat, e: nat, p: nat, o: nat, self: bool, a: Rights)
    requires Inv(db0, th) && r in th.lists && Run(db0.links, th.lists[r], i, e)
    requires e + 1 < |th.lists[r]| ==> Depth(db0.links, th.lists[r][e + 1]) <= Depth(db0.links, th.lists[r][i])
    requires Demoted(db0, db, th.lists[r], i, e + 1, th.lists[r][i], p, o, self, a)
    ensures Sound(db, th) && Confined(db, th)
    ensures forall n :: Live(th, n) ==>
      Attr(db, n) == if Hit(KinOf(db0.links), th.lists[r][i], p, o, self, n) then Attr(db0, n) - a else Attr(db0, n)
    ensures forall n :: Live(th, n) ==> Attr(db, n) != {} || InSlice(th.lists[r], i, e + 1, n)
  {
    var kin, l, m := KinOf(db0.links), th.lists[r], th.lists[r][i];
    forall n | Live(th, n)
      ensures Attr(db, n) == if Hit(kin, m, p, o, self, n) then Attr(db0, n) - a else Attr(db0, n)
      ensures Attr(db, n) != {} || InSlice(l, i, e + 1, n)
    {
      SliceIsSubtree(db0, th, r, i, e, n);
      if Hit(kin, m, p, o, self, n) { HitIsDerived(kin, m, p, o, self, n); }
    }
    forall n | Live(th, n)
      ensures RightsOk(db, n)
    {
      assert RightsOk(db0, n);
      ParentLive(db0, th, n);
      if n in kin.prnt && Hit(kin, m, p, o, self, kin.prnt[n]) { HitInherited(kin, m, p, o, self, n); }
    }
    SameLinksSound(db0, db, th);
  }

  lemma SameLinksSound(db0: Db, db: Db, th: Threads)
    requires Sound(db0, th) && db.links == db0.links && db.tree == db0.tree
    ensures Sound(db, th)
  {
    forall r | r in th.lists
      ensures ListOk(db, th, r)
    { assert ListOk(db0, th, r); }
    forall n | n in th.home
      ensures AtHome(db, th, n)
    { assert AtHome(db0, th, n); }
    forall sp
      ensures TreeOk(db, th, sp)
    { assert TreeOk(db0, th, sp); }
    forall n | Live(th, n)
      ensures InTree(db, n) && FramesOk(db, n)
    { assert InTree(db0, n) && FramesOk(db0, n); }
  }

  method RevokeNode(d: Database, m: Id, p: nat, o: nat, a: Rights, self: bool)
    requires Inv(d.db, d.th) && Live(d.th, m)
    modifies d`db, d`th
    ensures Inv(d.db, d.th) && KinOf(d.db.links) == KinOf(old(d.db).links)
    ensures forall n :: Cut(old(d.db), old(d.th), d.db, d.th, m, p, o, self, a, n)
  {
    ghost var db0, th0 := d.db, d.th;
    ghost var r, i := Locate(d.db, d.th, m);
    ghost var l := d.th.lists[r];
    var last;
    ghost var e;
    last, e := DemotePass(d, m, p, o, a, self, l, i);
    DemotedConfined(db0, d.db, th0, r, i, e, p, o, self, a);
    ghost var db1 := d.db;
    SweepPass(d, m, last, r, l, i, e);
    forall n
      ensures Cut(db0, th0, d.db, d.th, m, p, o, self, a, n)
    {
      if Live(th0, n) {
        SliceIsSubtree(db0, th0, r, i, e, n);
        if Hit(KinOf(db0.links), m, p, o, self, n) { HitIsDerived(KinOf(db0.links), m, p, o, self, n); }
        assert Attr(db0, n) != {};
      }
      assert Live(d.th, n) <==> Live(th0, n) && !(InSlice(l, i, e + 1, n) && Attr(db1, n) == {});
    }
  }

  // ----- the whole window

  /** The part of the window that node m covers, as frames. */
  function FirstFrame(db: Db, m: Id, base: nat): nat {
    Max(base, InfoOf(db, m).base) - InfoOf(db, m).base + InfoOf(db, m).phys
  }

  function FrameOrder(db: Db, m: Id, ord: nat): nat { Min(InfoOf(db, m).order, ord) }

  /** m is a node of space sp whose range overlaps the window. */
  ghost predicate Target(db: Db, th: Threads, sp: nat, base: nat, ord: nat, m: Id) {
    Live(th, m) && InfoOf(db, m).space == sp && Overlaps(EntryOf(db, m), Entry(base, ord, 0))
  }

  ghost predicate HitIn(db: Db, base: nat, ord: nat, self: bool, m: Id, n: Id) {
    Hit(KinOf(db.links), m, FirstFrame(db, m, base), FrameOrder(db, m, ord), self, n)
  }

  /** n is hit on behalf of a target that ends at or below addr. */
  ghost predicate DoomedBy(db: Db, th: Threads, sp: nat, base: nat, ord: nat, self: bool, addr: nat, n: Id) {
    exists m :: Target(db, th, sp, base, ord, m) && Top(EntryOf(db, m)) <= addr && HitIn(db, base, ord, self, m, n)
  }

  /** n is hit on behalf of some target. */
  ghost predicate Doomed(db: Db, th: Threads, sp: nat, base: nat, ord: nat, self: bool, n: Id) {
    exists m :: Target(db, th, sp, base, ord, m) && HitIn(db, base, ord, self, m, n)
  }

  /** A doomed node loses the rights a and goes if none are left; any other node is untouched. */
  ghost predicate Fate(db0: Db, th0: Threads, db: Db, th: Threads, doomed: bool, a: Rights, n: Id) {
    && (Live(th, n) <==> Live(th0, n) && !(doomed && Attr(db0, n) - a == {}))
    && (Live(th, n) ==> Attr(db, n) == if doomed then Attr(db0, n) - a else Attr(db0, n))
  }

  ghost predicate Progress(db0: Db, th0: Threads, db: Db, th: Threads, sp: nat, base: nat, ord: nat, self: bool,
                           a: Rights, addr: nat) {
    && Inv(db, th) && KinOf(db.links) == KinOf(db0.links)
    && forall n :: Fate(db0, th0, db, th, DoomedBy(db0, th0, sp, base, ord, self, addr, n), a, n)
  }

  /** A node hit on behalf of a target that is gone is gone as well. */
  lemma GoneTogether(db0: Db, db: Db, th: Threads, base: nat, ord: nat, self: bool, m: Id, n: Id)
    requires Threaded(db, th) && KinOf(db.links) == KinOf(db0.links) && HitIn(db0, base, ord, self, m, n) && Live(th, n)
    ensures Live(th, m)
  {
    HitIsDerived(KinOf(db0.links), m, FirstFrame(db0, m, base), FrameOrder(db0, m, ord), self, n);
    AncestorLive(db, th, m, n);
  }

  /** When no live target ends above addr, all has been done. */
  lemma AllDone(db0: Db, th0: Threads, db: Db, th: Threads, sp: nat, base: nat, ord: nat, self: bool, a: Rights,
                addr: nat, n: Id)
    requires Progress(db0, th0, db, th, sp, base, ord, self, a, addr)
    requires forall m :: Target(db0, th0, sp, base, ord, m) && Live(th, m) ==> Top(EntryOf(db0, m)) <= addr
    ensures Fate(db0, th0, db, th, Doomed(db0, th0, sp, base, ord, self, n), a, n)
  {
    assert Fate(db0, th0, db, th, DoomedBy(db0, th0, sp, base, ord, self, addr, n), a, n);
    if Live(th, n) && Doomed(db0, th0, sp, base, ord, self, n) {
      var m :| Target(db0, th0, sp, base, ord, m) && HitIn(db0, base, ord, self, m, n);
      GoneTogether(db0, db, th, base, ord, self, m, n);
    }
  }

  /** The next node of the walk is the only live target that ends in (addr, Top(m)]. */
  lemma OneStep(db0: Db, th0: Threads, db: Db, th: Threads, db': Db, th': Threads,
                sp: nat, base: nat, ord: nat, self: bool, a: Rights, addr: nat, m: Id, n: Id)
    requires Progress(db0, th0, db, th, sp, base, ord, self, a, addr)
    requires Target(db0, th0, sp, base, ord, m) && Live(th, m) && addr < Top(EntryOf(db0, m))
    requires forall x :: Target(db0, th0, sp, base, ord, x) && Live(th, x) && x != m ==>
      Top(EntryOf(db0, x)) <= addr || Top(EntryOf(db0, m)) <= EntryOf(db0, x).base
    requires Cut(db, th, db', th', m, FirstFrame(db0, m, base), FrameOrder(db0, m, ord), self, a, n)
    ensures Fate(db0, th0, db', th', DoomedBy(db0, th0, sp, base, ord, self, Top(EntryOf(db0, m)), n), a, n)
  {
    var top := Top(EntryOf(db0, m));
    var before := DoomedBy(db0, th0, sp, base, ord, self, addr, n);
    var after := DoomedBy(db0, th0, sp, base, ord, self, top, n);
    assert Fate(db0, th0, db, th, before, a, n);
    if before {
      var x :| Target(db0, th0, sp, base, ord, x) && Top(EntryOf(db0, x)) <= addr && HitIn(db0, base, ord, self, x, n);
      assert Top(EntryOf(db0, x)) <= top;
    }
    if Live(th, n) {
      if after {
        var x :| Target(db0, th0, sp, base, ord, x) && Top(EntryOf(db0, x)) <= top && HitIn(db0, base, ord, self, x, n);
        GoneTogether(db0, db, th, base, ord, self, x, n);
      }
      assert after <==> before || HitIn(db0, base, ord, self, m, n);
      assert Attr(db0, n) - a - a == Attr(db0, n) - a;
    }
  }

  lemma AllSteps(db0: Db, th0: Threads, db: Db, th: Threads, db': Db, th': Threads,
                 sp: nat, base: nat, ord: nat, self: bool, a: Rights, addr: nat, m: Id)
    requires Progress(db0, th0, db, th, sp, base, ord, self, a, addr)
    requires Target(db0, th0, sp, base, ord, m) && Live(th, m) && addr < Top(EntryOf(db0, m))
    requires forall x :: Target(db0, th0, sp, base, ord, x) && Live(th, x) && x != m ==>
      Top(EntryOf(db0, x)) <= addr || Top(EntryOf(db0, m)) <= EntryOf(db0, x).base
    requires Inv(db', th') && KinOf(db'.links) == KinOf(db.links)
    requires forall n :: Cut(db, th, db', th', m, FirstFrame(db0, m, base), FrameOrder(db0, m, ord), self, a, n)
    ensures Progress(db0, th0, db', th', sp, base, ord, self, a, Top(EntryOf(db0, m)))
  {
    forall n
      ensures Fate(db0, th0, db', th', DoomedBy(db0, th0, sp, base, ord, self, Top(EntryOf(db0, m)), n), a, n)
    { OneStep(db0, th0, db, th, db', th', sp, base, ord, self, a, addr, m, n); }
  }

  /** What the lookup of the next node says about the nodes of the space. */
  lemma Nearest(db0: Db, th0: Threads, db: Db, th: Threads, sp: nat, addr: nat, x: Id)
    requires Trees(db0, th0) && Trees(db, th) && KinOf(db.links) == KinOf(db0.links)
    requires Live(th, x) && InfoOf(db0, x).space == sp
    ensures var f := LookupIn(TreeOf(db, sp), addr, true);
            && (f.None? ==> Top(EntryOf(db0, x)) <= addr)
            && (f.Some? ==> Live(th, f.e.id) && f.e == EntryOf(db0, f.e.id) && InfoOf(db0, f.e.id).space == sp)
            && (f.Some? ==> addr < Top(f.e))
            && (f.Some? && x != f.e.id ==> Top(EntryOf(db0, x)) <= addr || Top(f.e) <= EntryOf(db0, x).base)
  {
    var t := TreeOf(db, sp);
    assert TreeOk(db, th, sp) && InTree(db, x);
    LookupMeaning(t, addr, true);
    var f := LookupIn(t, addr, true);
    var i :| 0 <= i < |t| && t[i] == EntryOf(db, x);
    if f.Some? {
      assert f.e in t;
      if x != f.e.id { RangesDisjoint(db, th, x, f.e.id); }
    }
  }

  /** Behind the window's first address the walk stands between targets, not inside one. */
  ghost predicate BetweenTargets(db: Db, th: Threads, sp: nat, base: nat, ord: nat, addr: nat) {
    forall m :: Target(db, th, sp, base, ord, m) ==>
      Top(EntryOf(db, m)) <= addr || addr <= EntryOf(db, m).base || addr == base
  }

  lemma LookupIsLive(db0: Db, db: Db, th: Threads, sp: nat, addr: nat)
    requires Trees(db, th) && KinOf(db.links) == KinOf(db0.links) && LookupIn(TreeOf(db, sp), addr, true).Some?
    ensures var e := LookupIn(TreeOf(db, sp), addr, true).e;
            Live(th, e.id) && e == EntryOf(db0, e.id) && InfoOf(db0, e.id).space == sp && Wf(e)
  {
    var t := TreeOf(db, sp);
    assert TreeOk(db, th, sp);
    LookupMeaning(t, addr, true);
    var e := LookupIn(t, addr, true).e;
    var i :| 0 <= i < |t| && t[i] == e;
  }

  /** The walk goes on: the node found is a target, and the only live one up to its end. */
  lemma NextTarget(db0: Db, th0: Threads, db: Db, th: Threads, sp: nat, base: nat, ord: nat, self: bool, a: Rights,
                   addr: nat, m: Id)
    requires Inv(db0, th0) && Progress(db0, th0, db, th, sp, base, ord, self, a, addr) && Aligned(base, ord)
             && base <= addr
    requires BetweenTargets(db0, th0, sp, base, ord, addr)
    requires LookupIn(TreeOf(db, sp), addr, true).Some? && m == LookupIn(TreeOf(db, sp), addr, true).e.id
    requires SameBlock(InfoOf(db, m).base, InfoOf(db, m).order, base, ord)
    ensures Live(th, m) && Target(db0, th0, sp, base, ord, m) && InfoOf(db, m) == InfoOf(db0, m)
    ensures Or(base, InfoOf(db, m).base) == Max(base, InfoOf(db, m).base)
    ensures addr < Top(EntryOf(db0, m)) && addr < base + Pow2(ord)
    ensures forall x :: Target(db0, th0, sp, base, ord, x) && Live(th, x) && x != m ==>
      Top(EntryOf(db0, x)) <= addr || Top(EntryOf(db0, m)) <= EntryOf(db0, x).base
  {
    LookupIsLive(db0, db, th, sp, addr);
    var i := InfoOf(db0, m);
    SameBlockIsOverlap(i.base, i.order, base, ord);
    OrOfOverlap(i.base, i.order, base, ord);
    OrComm(base, i.base);
    assert Fate(db0, th0, db, th, DoomedBy(db0, th0, sp, base, ord, self, addr, m), a, m);
    assert Target(db0, th0, sp, base, ord, m);
    forall x | Live(th, x) && InfoOf(db0, x).space == sp
      ensures addr < Top(EntryOf(db0, m))
      ensures x != m ==> Top(EntryOf(db0, x)) <= addr || Top(EntryOf(db0, m)) <= EntryOf(db0, x).base
    { Nearest(db0, th0, db, th, sp, addr, x); }
  }

  /** The walk ends: no live target reaches beyond addr. */
  lemma NoMoreTargets(db0: Db, th0: Threads, db: Db, th: Threads, sp: nat, base: nat, ord: nat, self: bool, a: Rights,
                      addr: nat, x: Id)
    requires Inv(db0, th0) && Progress(db0, th0, db, th, sp, base, ord, self, a, addr) && Aligned(base, ord)
             && base <= addr
    requires var f := LookupIn(TreeOf(db, sp), addr, true);
             f.None? || !SameBlock(InfoOf(db, f.e.id).base, InfoOf(db, f.e.id).order, base, ord)
    requires Target(db0, th0, sp, base, ord, x) && Live(th, x)
    ensures Top(EntryOf(db0, x)) <= addr
  {
    var f := LookupIn(TreeOf(db, sp), addr, true);
    Nearest(db0, th0, db, th, sp, addr, x);
    if f.Some? {
      LookupIsLive(db0, db, th, sp, addr);
      SameBlockIsOverlap(f.e.base, f.e.order, base, ord);
    }
  }

  // ----- what being hit means

  /** m maps address x, which lies in the window. */
  ghost predicate MapsInWindow(db: Db, th: Threads, sp: nat, base: nat, ord: nat, m: Id, x: int) {
    Live(th, m) && InfoOf(db, m).space == sp && Holds(EntryOf(db, m), x) && InRange(x, base, ord)
  }

  /** The frame behind address x of m. */
  function FrameAt(db: Db, m: Id, x: int): int { InfoOf(db, m).phys + x - InfoOf(db, m).base }

  /** c was derived from m directly, and f is one of its frames. */
  predicate ChildWith(db: Db, m: Id, c: Id, f: int) {
    c in db.links.prnt && db.links.prnt[c] == m && InRange(f, InfoOf(db, c).phys, InfoOf(db, c).order)
  }

  /** With `self`: n is, or is derived from, a node that maps an address of the window. Without: n is, or is derived
      from, a direct child of such a node, and that child has the frame that the node maps there. */
  ghost predicate Revoked(db: Db, th: Threads, sp: nat, base: nat, ord: nat, self: bool, n: Id) {
    if self then exists m, x :: MapsInWindow(db, th, sp, base, ord, m, x) && Derived(KinOf(db.links), m, n)
    else exists m, x, c :: MapsInWindow(db, th, sp, base, ord, m, x) && ChildWith(db, m, c, FrameAt(db, m, x))
                           && Derived(KinOf(db.links), c, n)
  }

  /** The addresses of the window that a target maps are an aligned block. */
  lemma WindowPart(db: Db, th: Threads, sp: nat, base: nat, ord: nat, m: Id)
    requires Trees(db, th) && Target(db, th, sp, base, ord, m) && Aligned(base, ord)
    ensures var b, o := Max(base, InfoOf(db, m).base), FrameOrder(db, m, ord);
            Aligned(b, o) && forall x :: MapsInWindow(db, th, sp, base, ord, m, x) <==> InRange(x, b, o)
    ensures Aligned(InfoOf(db, m).base, InfoOf(db, m).order)
  {
    var i, t := InfoOf(db, m), TreeOf(db, sp);
    assert InTree(db, m) && TreeOk(db, th, sp);
    var j :| 0 <= j < |t| && t[j] == EntryOf(db, m);
    SameBlockIsOverlap(i.base, i.order, base, ord);
  }

  /** So are its frames there. */
  lemma FramesPart(db: Db, th: Threads, sp: nat, base: nat, ord: nat, m: Id)
    requires Sound(db, th) && Target(db, th, sp, base, ord, m) && Aligned(base, ord)
    ensures Aligned(FirstFrame(db, m, base), FrameOrder(db, m, ord))
    ensures InfoOf(db, m).phys <= FirstFrame(db, m, base)
    ensures FirstFrame(db, m, base) + Pow2(FrameOrder(db, m, ord)) <= InfoOf(db, m).phys + Pow2(InfoOf(db, m).order)
  {
    var i, b, o := InfoOf(db, m), Max(base, InfoOf(db, m).base), FrameOrder(db, m, ord);
    WindowPart(db, th, sp, base, ord, m);
    assert MapsInWindow(db, th, sp, base, ord, m, b + Pow2(o) - 1);
    assert FramesOk(db, m);
    AlignedFiner(i.base, o, i.order);
    AlignedFiner(i.phys, o, i.order);
    AlignedAdd(b, i.base, o);
    AlignedAdd(b - i.base, i.phys, o);
  }

  /** A target itself always passes the test on its frames. */
  lemma TargetMeets(db: Db, th: Threads, sp: nat, base: nat, ord: nat, m: Id)
    requires Sound(db, th) && Target(db, th, sp, base, ord, m) && Aligned(base, ord)
    ensures Meets(KinOf(db.links), m, FirstFrame(db, m, base), FrameOrder(db, m, ord))
  {
    FramesPart(db, th, sp, base, ord, m);
    ParentLive(db, th, m);
    assert FramesOk(db, m);
    SameBlockIsOverlap(InfoOf(db, m).phys, InfoOf(db, m).order, FirstFrame(db, m, base), FrameOrder(db, m, ord));
  }

  /** A child passes the test exactly when it has a frame that its parent maps in the window. */
  lemma ChildMeets(db: Db, th: Threads, sp: nat, base: nat, ord: nat, m: Id, c: Id)
    requires Sound(db, th) && Target(db, th, sp, base, ord, m) && Aligned(base, ord)
    requires Live(th, c) && c in db.links.prnt && db.links.prnt[c] == m
    ensures Meets(KinOf(db.links), c, FirstFrame(db, m, base), FrameOrder(db, m, ord)) <==>
            exists x :: MapsInWindow(db, th, sp, base, ord, m, x) && ChildWith(db, m, c, FrameAt(db, m, x))
  {
    var i, p, o := InfoOf(db, c), FirstFrame(db, m, base), FrameOrder(db, m, ord);
    FramesPart(db, th, sp, base, ord, m);
    WindowPart(db, th, sp, base, ord, m);
    ParentLive(db, th, c);
    assert FramesOk(db, c);
    SameBlockIsOverlap(i.phys, i.order, p, o);
    if Meets(KinOf(db.links), c, p, o) {
      var x := Max(i.phys, p) - InfoOf(db, m).phys + InfoOf(db, m).base;
      assert MapsInWindow(db, th, sp, base, ord, m, x) && ChildWith(db, m, c, FrameAt(db, m, x));
    }
  }

  lemma TargetIsMapping(db: Db, th: Threads, sp: nat, base: nat, ord: nat, m: Id)
    requires Trees(db, th) && Aligned(base, ord)
    ensures Target(db, th, sp, base, ord, m) <==> exists x :: MapsInWindow(db, th, sp, base, ord, m, x)
  {
    if Target(db, th, sp, base, ord, m) {
      assert MapsInWindow(db, th, sp, base, ord, m, Max(base, InfoOf(db, m).base));
    }
  }

  /** The tests of both passes single out exactly the nodes that are to be revoked. */
  lemma DoomedIsRevoked(db: Db, th: Threads, sp: nat, base: nat, ord: nat, self: bool, n: Id)
    requires Sound(db, th) && Aligned(base, ord) && Live(th, n)
    ensures Doomed(db, th, sp, base, ord, self, n) <==> Revoked(db, th, sp, base, ord, self, n)
  {
    if Doomed(db, th, sp, base, ord, self, n) { DoomedThenRevoked(db, th, sp, base, ord, self, n); }
    if Revoked(db, th, sp, base, ord, self, n) { RevokedThenDoomed(db, th, sp, base, ord, self, n); }
  }

  lemma DoomedThenRevoked(db: Db, th: Threads, sp: nat, base: nat, ord: nat, self: bool, n: Id)
    requires Sound(db, th) && Aligned(base, ord) && Live(th, n) && Doomed(db, th, sp, base, ord, self, n)
    ensures Revoked(db, th, sp, base, ord, self, n)
  {
    var k := KinOf(db.links);
    var m :| Target(db, th, sp, base, ord, m) && HitIn(db, base, ord, self, m, n);
    var p, o := FirstFrame(db, m, base), FrameOrder(db, m, ord);
    TargetIsMapping(db, th, sp, base, ord, m);
    if !self {
      BelowChildMeaning(k, m, p, o, n);
      var c :| HasUp(k, c) && k.prnt[c] == m && Meets(k, c, p, o) && Derived(k, c, n);
      AncestorLive(db, th, c, n);
      ChildMeets(db, th, sp, base, ord, m, c);
    }
  }

  lemma RevokedThenDoomed(db: Db, th: Threads, sp: nat, base: nat, ord: nat, self: bool, n: Id)
    requires Sound(db, th) && Aligned(base, ord) && Live(th, n) && Revoked(db, th, sp, base, ord, self, n)
    ensures Doomed(db, th, sp, base, ord, self, n)
  {
    var k := KinOf(db.links);
    if self {
      var m, x :| MapsInWindow(db, th, sp, base, ord, m, x) && Derived(k, m, n);
      TargetIsMapping(db, th, sp, base, ord, m);
      TargetMeets(db, th, sp, base, ord, m);
      assert HitIn(db, base, ord, self, m, n);
    } else {
      var m, x, c :| MapsInWindow(db, th, sp, base, ord, m, x) && ChildWith(db, m, c, FrameAt(db, m, x))
                     && Derived(k, c, n);
      TargetIsMapping(db, th, sp, base, ord, m);
      AncestorLive(db, th, c, n);
      ParentLive(db, th, c);
      ChildMeets(db, th, sp, base, ord, m, c);
      BelowChildMeaning(k, m, FirstFrame(db, m, base), FrameOrder(db, m, ord), n);
      assert HitIn(db, base, ord, self, m, n);
    }
  }

  /** Pd::revoke */
  method Revoke(d: Database, sp: nat, base: nat, ord: nat, a: Rights, self: bool)
    requires d.Valid() && Aligned(base, ord)
    modifies d`db, d`th
    ensures d.Valid() && KinOf(d.db.links) == KinOf(old(d.db).links)
    ensures forall n ::
      Fate(old(d.db), old(d.th), d.db, d.th, Revoked(old(d.db), old(d.th), sp, base, ord, self, n), a, n)
  {
    ghost var db0, th0 := d.db, d.th;
    var addr: nat := base;
    ProgressStart(db0, th0, sp, base, ord, self, a);
    while true
      invariant base <= addr && BetweenTargets(db0, th0, sp, base, ord, addr)
      invariant Progress(db0, th0, d.db, d.th, sp, base, ord, self, a, addr)
      invariant d.nextId == old(d.nextId)
      decreases Max(0, base + Pow2(ord) - addr)
    {
      var f := LookupIn(TreeOf(d.db, sp), addr, true);
      if f.None? { break; }
      var m := f.e.id;
      var info := InfoOf(d.db, m);
      if !SameBlock(info.base, info.order, base, ord) { break; }
      addr := RevokeNext(d, m, sp, base, ord, a, self, addr, db0, th0);
    }
    Finished(db0, th0, d.db, d.th, sp, base, ord, self, a, addr, d.nextId);
  }

  /** One target of the window: clamp, revoke, go on behind it. */
  method RevokeNext(d: Database, m: Id, sp: nat, base: nat, ord: nat, a: Rights, self: bool, ghost addr: nat,
                    ghost db0: Db, ghost th0: Threads)
    returns (addr': nat)
    requires Inv(db0, th0) && Progress(db0, th0, d.db, d.th, sp, base, ord, self, a, addr) && Aligned(base, ord)
    requires base <= addr && BetweenTargets(db0, th0, sp, base, ord, addr)
    requires LookupIn(TreeOf(d.db, sp), addr, true).Some? && m == LookupIn(TreeOf(d.db, sp), addr, true).e.id
    requires SameBlock(InfoOf(d.db, m).base, InfoOf(d.db, m).order, base, ord)
    modifies d`db, d`th
    ensures addr < addr' && addr < base + Pow2(ord)
    ensures BetweenTargets(db0, th0, sp, base, ord, addr')
    ensures Progress(db0, th0, d.db, d.th, sp, base, ord, self, a, addr')
  {
    ghost var db1, th1 := d.db, d.th;
    var info := InfoOf(d.db, m);
    NextTarget(db0, th0, d.db, d.th, sp, base, ord, self, a, addr, m);
    var b := Or(base, info.base);
    var o := Min(info.order, ord);
    var p := b - info.base + info.phys;
    assert p == FirstFrame(db0, m, base) && o == FrameOrder(db0, m, ord);
    RevokeNode(d, m, p, o, a, self);
    addr' := info.base + Pow2(info.order);
    assert addr' == Top(EntryOf(db0, m));
    AllSteps(db0, th0, db1, th1, d.db, d.th, sp, base, ord, self, a, addr, m);
    BehindTarget(db0, th0, sp, base, ord, m);
  }

  lemma BehindTarget(db: Db, th: Threads, sp: nat, base: nat, ord: nat, m: Id)
    requires Trees(db, th) && Target(db, th, sp, base, ord, m)
    ensures BetweenTargets(db, th, sp, base, ord, Top(EntryOf(db, m)))
  {
    forall x | Target(db, th, sp, base, ord, x) && x != m
      ensures Top(EntryOf(db, x)) <= Top(EntryOf(db, m)) || Top(EntryOf(db, m)) <= EntryOf(db, x).base
    { RangesDisjoint(db, th, x, m); }
  }

  /** What the end of the walk amounts to. */
  lemma Finished(db0: Db, th0: Threads, db: Db, th: Threads, sp: nat, base: nat, ord: nat, self: bool, a: Rights,
                 addr: nat, nextId: Id)
    requires Inv(db0, th0) && Progress(db0, th0, db, th, sp, base, ord, self, a, addr) && Aligned(base, ord)
             && base <= addr
    requires var f := LookupIn(TreeOf(db, sp), addr, true);
             f.None? || !SameBlock(InfoOf(db, f.e.id).base, InfoOf(db, f.e.id).order, base, ord)
    requires Unused(db0, th0, nextId)
    ensures forall n :: Fate(db0, th0, db, th, Revoked(db0, th0, sp, base, ord, self, n), a, n)
    ensures Unused(db, th, nextId)
  {
    forall x | Target(db0, th0, sp, base, ord, x) && Live(th, x)
      ensures Top(EntryOf(db0, x)) <= addr
    { NoMoreTargets(db0, th0, db, th, sp, base, ord, self, a, addr, x); }
    forall n
      ensures Fate(db0, th0, db, th, Revoked(db0, th0, sp, base, ord, self, n), a, n)
    {
      AllDone(db0, th0, db, th, sp, base, ord, self, a, addr, n);
      if Live(th0, n) { DoomedIsRevoked(db0, th0, sp, base, ord, self, n); }
    }
    forall n | Live(th, n)
      ensures Live(th0, n)
    { assert Fate(db0, th0, db, th, Revoked(db0, th0, sp, base, ord, self, n), a, n); }
    UnusedKept(db0, th0, db, th, nextId);
  }

  lemma UnusedKept(db0: Db, th0: Threads, db: Db, th: Threads, nextId: Id)
    requires Unused(db0, th0, nextId) && KinOf(db.links) == KinOf(db0.links) && Threaded(db, th)
    requires forall n :: Live(th, n) ==> Live(th0, n)
    ensures Unused(db, th, nextId)
  {
    forall r | r in th.lists
      ensures r < nextId
    { assert ListOk(db, th, r) && Live(th, r); }
    forall n | n in th.home
      ensures n < nextId
    { assert Live(th, n); }
  }

  lemma ProgressStart(db: Db, th: Threads, sp: nat, base: nat, ord: nat, self: bool, a: Rights)
    requires Inv(db, th) && Aligned(base, ord)
    ensures Progress(db, th, db, th, sp, base, ord, self, a, base)
  {
    forall n
      ensures Fate(db, th, db, th, DoomedBy(db, th, sp, base, ord, self, base, n), a, n)
    { if Live(th, n) { assert Attr(db, n) != {}; } }
  }
}
