/** The mapping database: the nodes of all spaces, the derivation lists they are threaded on, their rights, and
    the ordered ranges each space's tree holds (include/mdb.hpp, src/mdb.cpp, include/space.hpp). */
module MappingDb {
  import opened Lists
  import opened Bits
  import opened Ranges
  import opened Derivation

  /** A set of permission bits (node_attr). */
  type Rights = set<nat>

  datatype Db = Db(links: Links, attr: map<Id, Rights>, tree: map<nat, seq<Entry>>)

  /** Which list each live node is on: lists are named by their root. */
  datatype Threads = Threads(lists: map<Id, seq<Id>>, home: map<Id, Id>)

  function InfoOf(db: Db, n: Id): Info { if n in db.links.info then db.links.info[n] else Info(0, 0, 0, 0, 0) }

  function Attr(db: Db, n: Id): Rights { if n in db.attr then db.attr[n] else {} }

  function TreeOf(db: Db, sp: nat): seq<Entry> { if sp in db.tree then db.tree[sp] else [] }

  function EntryOf(db: Db, n: Id): Entry { Entry(InfoOf(db, n).base, InfoOf(db, n).order, n) }

  ghost predicate Live(th: Threads, n: Id) { n in th.home }

  // ----- the invariant

  /** List r holds exactly the nodes at home there, in preorder. */
  ghost predicate ListOk(db: Db, th: Threads, r: Id)
    requires r in th.lists
  {
    var l := th.lists[r];
    && Circle(db.links, l) && Preorder(db.links, l) && l[0] == r
    && forall i :: 0 <= i < |l| ==> l[i] in th.home && th.home[l[i]] == r
  }

  ghost predicate AtHome(db: Db, th: Threads, n: Id)
    requires n in th.home
  {
    th.home[n] in th.lists && n in th.lists[th.home[n]]
  }

  ghost predicate Threaded(db: Db, th: Threads) {
    && (forall r :: r in th.lists ==> ListOk(db, th, r))
    && (forall n :: n in th.home ==> AtHome(db, th, n))
  }

  /** Every range in a tree belongs to a live node of that space, and every live node has its range there. */
  ghost predicate TreeOk(db: Db, th: Threads, sp: nat) {
    && Ordered(TreeOf(db, sp))
    && forall e :: e in TreeOf(db, sp) ==> Live(th, e.id) && e == EntryOf(db, e.id) && InfoOf(db, e.id).space == sp
  }

  ghost predicate InTree(db: Db, n: Id) { EntryOf(db, n) in TreeOf(db, InfoOf(db, n).space) }

  ghost predicate Trees(db: Db, th: Threads) {
    && (forall sp :: TreeOk(db, th, sp))
    && (forall n :: Live(th, n) ==> InTree(db, n))
  }

  /** The frames of n are frames of p. */
  predicate FramesWithin(db: Db, n: Id, p: Id) {
    && InfoOf(db, p).phys <= InfoOf(db, n).phys
    && InfoOf(db, n).phys + Pow2(InfoOf(db, n).order) <= InfoOf(db, p).phys + Pow2(InfoOf(db, p).order)
  }

  ghost predicate FramesOk(db: Db, n: Id) {
    && Aligned(InfoOf(db, n).phys, InfoOf(db, n).order)
    && (n in db.links.prnt ==> FramesWithin(db, n, db.links.prnt[n]))
  }

  ghost predicate RightsOk(db: Db, n: Id) { n in db.links.prnt ==> Attr(db, n) <= Attr(db, db.links.prnt[n]) }

  /** What holds at every moment of every operation. */
  ghost predicate Sound(db: Db, th: Threads) {
    Threaded(db, th) && Trees(db, th) && (forall n :: Live(th, n) ==> FramesOk(db, n))
  }

  ghost predicate Confined(db: Db, th: Threads) { forall n :: Live(th, n) ==> RightsOk(db, n) }

  /** What holds between operations. */
  ghost predicate Inv(db: Db, th: Threads) {
    Sound(db, th) && Confined(db, th) && forall n :: Live(th, n) ==> Attr(db, n) != {}
  }

  // ----- consequences

  /** The list and position of a live node. */
  lemma Locate(db: Db, th: Threads, n: Id) returns (r: Id, i: nat)
    requires Threaded(db, th) && Live(th, n)
    ensures r in th.lists && ListOk(db, th, r) && i < |th.lists[r]| && th.lists[r][i] == n && th.home[n] == r
  {
    assert AtHome(db, th, n);
    r := th.home[n];
    i :| 0 <= i < |th.lists[r]| && th.lists[r][i] == n;
  }

  /** Parents of live nodes are live, one level up and on the same list. */
  lemma ParentLive(db: Db, th: Threads, n: Id)
    requires Threaded(db, th) && Live(th, n)
    ensures n in db.links.info
    ensures n in db.links.prnt ==>
      var p := db.links.prnt[n];
      Live(th, p) && p in db.links.info && th.home[p] == th.home[n] && Depth(db.links, n) == Depth(db.links, p) + 1
  {
    var r, i := Locate(db, th, n);
    var l := th.lists[r];
    assert Linked(db.links, l, i);
    if i > 0 {
      assert HasParent(db.links, l, i);
      var j :| IsParent(db.links, l, j, i);
      assert Linked(db.links, l, j);
    }
  }

  /** Everything a live node is derived from is live. */
  lemma {:induction false} AncestorLive(db: Db, th: Threads, a: Id, n: Id)
    requires Threaded(db, th) && Live(th, n) && Derived(KinOf(db.links), a, n)
    ensures Live(th, a)
    decreases Depth(db.links, n)
  {
    ParentLive(db, th, n);
    if n != a { AncestorLive(db, th, a, db.links.prnt[n]); }
  }

  /** Rights confinement along whole derivation chains: a derived node has no frame and no right that the node it
      was derived from lacks. */
  lemma {:induction false} ChainConfined(db: Db, th: Threads, a: Id, n: Id)
    requires Inv(db, th) && Live(th, n) && Derived(KinOf(db.links), a, n)
    ensures Attr(db, n) <= Attr(db, a) && FramesWithin(db, n, a)
    decreases Depth(db.links, n)
  {
    assert RightsOk(db, n) && FramesOk(db, n);
    if n != a {
      ParentLive(db, th, n);
      ChainConfined(db, th, a, db.links.prnt[n]);
    }
  }

  /** Two live nodes of one space have disjoint ranges. */
  lemma RangesDisjoint(db: Db, th: Threads, m: Id, n: Id)
    requires Trees(db, th) && Live(th, m) && Live(th, n) && m != n && InfoOf(db, m).space == InfoOf(db, n).space
    ensures !Overlaps(EntryOf(db, m), EntryOf(db, n))
  {
    var t := TreeOf(db, InfoOf(db, m).space);
    assert InTree(db, m) && InTree(db, n) && TreeOk(db, th, InfoOf(db, m).space);
    var i :| 0 <= i < |t| && t[i] == EntryOf(db, m);
    var j :| 0 <= j < |t| && t[j] == EntryOf(db, n);
    if i < j { assert Top(t[i]) <= t[j].base; } else { assert Top(t[j]) <= t[i].base; }
  }

  // ----- adding a node

  /** The fields of a new node n derived from p, and its range in the tree of its space. */
  function AddChild(db: Db, p: Id, n: Id, info: Info, a: Rights): Db {
    Db(LinkAfter(db.links, p, n, info), db.attr[n := a],
       db.tree[info.space := InsertAt(TreeOf(db, info.space), Entry(info.base, info.order, n))])
  }

  ghost function AddToThreads(th: Threads, r: Id, k: nat, n: Id): Threads
    requires r in th.lists && k < |th.lists[r]|
  {
    Threads(th.lists[r := Inserted(th.lists[r], k, n)], th.home[n := r])
  }

  /** Changing links of nodes that are not on a list leaves the list alone. */
  lemma ListFrame(s: Links, s': Links, l: seq<Id>)
    requires Circle(s, l) && Preorder(s, l)
    requires forall i :: 0 <= i < |l| ==> Same(s, s', l[i])
    ensures Circle(s', l) && Preorder(s', l)
  {
    forall i | 0 <= i < |l|
      ensures Linked(s', l, i)
    { assert Linked(s, l, i) && Same(s, s', l[i]); }
    forall i | 0 < i < |l|
      ensures HasParent(s', l, i)
    {
      assert HasParent(s, l, i);
      var j :| IsParent(s, l, j, i);
      ParentFrame(s, s', l, j, i);
    }
    assert Same(s, s', l[0]);
  }

  lemma ParentFrame(s: Links, s': Links, l: seq<Id>, j: int, i: int)
    requires IsParent(s, l, j, i) && forall k :: 0 <= k < |l| ==> Same(s, s', l[k])
    ensures IsParent(s', l, j, i)
  {
    assert Same(s, s', l[i]) && Same(s, s', l[j]);
    forall m | j < m < i
      ensures Depth(s', l[m]) >= Depth(s', l[i])
    { assert Same(s, s', l[m]); }
  }

  /** The links of node n agree. */
  ghost predicate Same(s: Links, s': Links, n: Id) {
    && Depth(s, n) == Depth(s', n) && Next(s, n) == Next(s', n) && Prev(s, n) == Prev(s', n)
    && (n in s.info <==> n in s'.info) && (n in s.prnt <==> n in s'.prnt) && (n in s.prnt ==> s.prnt[n] == s'.prnt[n])
  }

  /** Conditions on a new node n with the given constants below parent p. */
  ghost predicate Addable(db: Db, th: Threads, p: Id, n: Id, info: Info) {
    && Live(th, p) && n !in th.home && n !in db.links.info && n !in db.links.prnt
    && info.dpth == Depth(db.links, p) + 1
    && Aligned(info.phys, info.order) && Aligned(info.base, info.order)
    && Free(TreeOf(db, info.space), Entry(info.base, info.order, n))
    && InfoOf(db, p).phys <= info.phys && info.phys + Pow2(info.order) <= InfoOf(db, p).phys + Pow2(InfoOf(db, p).order)
  }

  lemma AddChildOwnList(db: Db, th: Threads, p: Id, n: Id, info: Info, a: Rights, r: Id, k: nat)
    requires Threaded(db, th) && Addable(db, th, p, n, info)
    requires r in th.lists && k < |th.lists[r]| && th.lists[r][k] == p
    ensures ListOk(AddChild(db, p, n, info, a), AddToThreads(th, r, k, n), r)
  {
    var db', th' := AddChild(db, p, n, info, a), AddToThreads(th, r, k, n);
    var l := th.lists[r];
    assert ListOk(db, th, r);
    assert n !in l;
    InsertedPreorder(db.links, l, k, n, info);
    var l' := Inserted(l, k, n);
    assert l'[0] == r;
    forall i | 0 <= i < |l'|
      ensures l'[i] in th'.home && th'.home[l'[i]] == r
    { assert i != k + 1 ==> l'[i] == l[if i <= k then i else i - 1]; }
  }

  lemma AddChildOtherList(db: Db, th: Threads, p: Id, n: Id, info: Info, a: Rights, r: Id, k: nat, q: Id)
    requires Threaded(db, th) && Addable(db, th, p, n, info)
    requires r in th.lists && k < |th.lists[r]| && th.lists[r][k] == p && q in th.lists && q != r
    ensures ListOk(AddChild(db, p, n, info, a), AddToThreads(th, r, k, n), q)
  {
    var db' := AddChild(db, p, n, info, a);
    assert ListOk(db, th, r) && ListOk(db, th, q) && Linked(db.links, th.lists[r], k);
    forall i | 0 <= i < |th.lists[q]|
      ensures Same(db.links, db'.links, th.lists[q][i])
    { assert th.home[th.lists[q][i]] == q && th.home[p] == r && th.home[Next(db.links, p)] == r; }
    ListFrame(db.links, db'.links, th.lists[q]);
  }

  lemma AddChildAtHome(db: Db, th: Threads, n: Id, r: Id, k: nat, m: Id)
    requires Threaded(db, th) && r in th.lists && k < |th.lists[r]| && n !in th.home
    requires m in AddToThreads(th, r, k, n).home
    ensures AtHome(db, AddToThreads(th, r, k, n), m)
  {
    var l, l' := th.lists[r], Inserted(th.lists[r], k, n);
    if m == n {
      assert l'[k + 1] == n;
    } else {
      assert AtHome(db, th, m);
      if th.home[m] == r {
        var i :| 0 <= i < |l| && l[i] == m;
        assert l'[if i <= k then i else i + 1] == m;
      }
    }
  }

  lemma AddChildThreaded(db: Db, th: Threads, p: Id, n: Id, info: Info, a: Rights, r: Id, k: nat)
    requires Threaded(db, th) && Addable(db, th, p, n, info)
    requires r in th.lists && k < |th.lists[r]| && th.lists[r][k] == p
    ensures Threaded(AddChild(db, p, n, info, a), AddToThreads(th, r, k, n))
  {
    var db', th' := AddChild(db, p, n, info, a), AddToThreads(th, r, k, n);
    forall q | q in th'.lists
      ensures ListOk(db', th', q)
    {
      if q == r {
        AddChildOwnList(db, th, p, n, info, a, r, k);
      } else {
        AddChildOtherList(db, th, p, n, info, a, r, k, q);
      }
    }
    forall m | m in th'.home
      ensures AtHome(db', th', m)
    { AddChildAtHome(db, th, n, r, k, m); }
  }

  lemma AddChildTrees(db: Db, th: Threads, p: Id, n: Id, info: Info, a: Rights, r: Id, k: nat)
    requires Trees(db, th) && Addable(db, th, p, n, info)
    requires r in th.lists && k < |th.lists[r]|
    ensures Trees(AddChild(db, p, n, info, a), AddToThreads(th, r, k, n))
  {
    var db', th' := AddChild(db, p, n, info, a), AddToThreads(th, r, k, n);
    var e, t := Entry(info.base, info.order, n), TreeOf(db, info.space);
    InsertMembers(t, e);
    assert TreeOk(db, th, info.space);
    InsertKeepsOrder(t, e);
    forall sp
      ensures TreeOk(db', th', sp)
    {
      assert TreeOk(db, th, sp);
      forall x | x in TreeOf(db', sp)
        ensures Live(th', x.id) && x == EntryOf(db', x.id) && InfoOf(db', x.id).space == sp
      {
        if !(sp == info.space && x == e) {
          assert x in TreeOf(db, sp);
          assert Live(th, x.id);
        }
      }
    }
    forall m | Live(th', m)
      ensures InTree(db', m)
    { if m != n { assert InTree(db, m); } }
  }

  /** Adding a node changes no fact about the nodes that were there. */
  lemma AddChildOthers(db: Db, th: Threads, p: Id, n: Id, info: Info, a: Rights, m: Id)
    requires Threaded(db, th) && Addable(db, th, p, n, info) && Live(th, m)
    ensures var db' := AddChild(db, p, n, info, a);
            && InfoOf(db', m) == InfoOf(db, m) && Attr(db', m) == Attr(db, m)
            && (FramesOk(db', m) <==> FramesOk(db, m)) && (RightsOk(db', m) <==> RightsOk(db, m))
  {
    ParentLive(db, th, m);
    var db' := AddChild(db, p, n, info, a);
    assert m != n && (m in db.links.prnt <==> m in db'.links.prnt);
    if m in db.links.prnt {
      var q := db.links.prnt[m];
      assert q != n && db'.links.prnt[m] == q && InfoOf(db', q) == InfoOf(db, q) && Attr(db', q) == Attr(db, q);
    }
  }

  lemma AddedFrames(db: Db, th: Threads, p: Id, n: Id, info: Info, a: Rights)
    requires Threaded(db, th) && Addable(db, th, p, n, info)
    ensures var db' := AddChild(db, p, n, info, a);
            FramesOk(db', n) && (a <= Attr(db, p) ==> RightsOk(db', n)) && Attr(db', n) == a
  {
    ParentLive(db, th, p);
  }

  /** A child added behind its parent keeps the database sound. */
  lemma AddChildSound(db: Db, th: Threads, p: Id, n: Id, info: Info, a: Rights, r: Id, k: nat)
    requires Sound(db, th) && Addable(db, th, p, n, info)
    requires r in th.lists && k < |th.lists[r]| && th.lists[r][k] == p
    ensures Sound(AddChild(db, p, n, info, a), AddToThreads(th, r, k, n))
  {
    var db', th' := AddChild(db, p, n, info, a), AddToThreads(th, r, k, n);
    AddChildThreaded(db, th, p, n, info, a, r, k);
    AddChildTrees(db, th, p, n, info, a, r, k);
    AddedFrames(db, th, p, n, info, a);
    forall m | Live(th', m)
      ensures FramesOk(db', m)
    {
      if m != n {
        assert Live(th, m) && FramesOk(db, m);
        AddChildOthers(db, th, p, n, info, a, m);
      }
    }
  }

  /** With confined, non-empty rights the whole invariant is kept. */
  lemma AddChildInv(db: Db, th: Threads, p: Id, n: Id, info: Info, a: Rights, r: Id, k: nat)
    requires Inv(db, th) && Addable(db, th, p, n, info) && a != {} && a <= Attr(db, p)
    requires r in th.lists && k < |th.lists[r]| && th.lists[r][k] == p
    ensures Inv(AddChild(db, p, n, info, a), AddToThreads(th, r, k, n))
  {
    var db', th' := AddChild(db, p, n, info, a), AddToThreads(th, r, k, n);
    AddChildSound(db, th, p, n, info, a, r, k);
    AddedFrames(db, th, p, n, info, a);
    forall m | Live(th', m)
      ensures RightsOk(db', m) && Attr(db', m) != {}
    {
      if m != n {
        assert Live(th, m) && RightsOk(db, m);
        AddChildOthers(db, th, p, n, info, a, m);
      }
    }
  }

  // ----- a new root

  function AddRoot(db: Db, n: Id, info: Info, a: Rights): Db {
    Db(Links(db.links.info[n := info], db.links.prnt, db.links.next[n := n], db.links.prev[n := n]), db.attr[n := a],
       db.tree[info.space := InsertAt(TreeOf(db, info.space), Entry(info.base, info.order, n))])
  }

  ghost predicate RootAddable(db: Db, th: Threads, n: Id, info: Info) {
    && info.dpth == 0 && n !in th.home && n !in db.links.info && n !in db.links.prnt && n !in th.lists
    && Aligned(info.phys, info.order) && Aligned(info.base, info.order)
    && Free(TreeOf(db, info.space), Entry(info.base, info.order, n))
  }

  ghost function RootThreads(th: Threads, n: Id): Threads { Threads(th.lists[n := [n]], th.home[n := n]) }

  lemma AddRootThreaded(db: Db, th: Threads, n: Id, info: Info, a: Rights)
    requires Threaded(db, th) && RootAddable(db, th, n, info)
    ensures Threaded(AddRoot(db, n, info, a), RootThreads(th, n))
  {
    var db', th' := AddRoot(db, n, info, a), RootThreads(th, n);
    forall q | q in th'.lists
      ensures ListOk(db', th', q)
    {
      if q != n {
        assert ListOk(db, th, q);
        forall i | 0 <= i < |th.lists[q]|
          ensures Same(db.links, db'.links, th.lists[q][i])
        { assert th.lists[q][i] in th.home; }
        ListFrame(db.links, db'.links, th.lists[q]);
      }
    }
    forall m | m in th'.home
      ensures AtHome(db', th', m)
    { if m != n { assert AtHome(db, th, m); } }
  }

  lemma AddRootTrees(db: Db, th: Threads, n: Id, info: Info, a: Rights)
    requires Trees(db, th) && RootAddable(db, th, n, info)
    ensures Trees(AddRoot(db, n, info, a), RootThreads(th, n))
  {
    var db', th' := AddRoot(db, n, info, a), RootThreads(th, n);
    var e, t := Entry(info.base, info.order, n), TreeOf(db, info.space);
    InsertMembers(t, e);
    assert TreeOk(db, th, info.space);
    InsertKeepsOrder(t, e);
    forall sp
      ensures TreeOk(db', th', sp)
    {
      assert TreeOk(db, th, sp);
      forall x | x in TreeOf(db', sp)
        ensures Live(th', x.id) && x == EntryOf(db', x.id) && InfoOf(db', x.id).space == sp
      { if !(sp == info.space && x == e) { assert x in TreeOf(db, sp) && Live(th, x.id); } }
    }
    forall m | Live(th', m)
      ensures InTree(db', m)
    { if m != n { assert InTree(db, m); } }
  }

  lemma AddRootInv(db: Db, th: Threads, n: Id, info: Info, a: Rights)
    requires Inv(db, th) && a != {} && RootAddable(db, th, n, info)
    ensures Inv(AddRoot(db, n, info, a), RootThreads(th, n))
  {
    var db', th' := AddRoot(db, n, info, a), RootThreads(th, n);
    AddRootThreaded(db, th, n, info, a);
    AddRootTrees(db, th, n, info, a);
    forall m | Live(th', m)
      ensures FramesOk(db', m) && RightsOk(db', m) && Attr(db', m) != {}
    {
      if m != n {
        assert Live(th, m) && FramesOk(db, m) && RightsOk(db, m);
        ParentLive(db, th, m);
      }
    }
  }

  // ----- removing a node without children

  function Drop(db: Db, n: Id): Db {
    var sp := InfoOf(db, n).space;
    db.(links := Unlink(db.links, n), tree := db.tree[sp := RemoveFrom(TreeOf(db, sp), EntryOf(db, n))])
  }

  ghost function DropFromThreads(th: Threads, r: Id, k: nat): Threads
    requires r in th.lists && k < |th.lists[r]|
  {
    var l := th.lists[r];
    Threads(if |l| == 1 then th.lists - {r} else th.lists[r := Dropped(l, k)], th.home - {l[k]})
  }

  lemma DropOwnList(db: Db, th: Threads, r: Id, k: nat)
    requires Threaded(db, th) && r in th.lists && k < |th.lists[r]| && |th.lists[r]| > 1
    requires Depth(db.links, Next(db.links, th.lists[r][k])) <= Depth(db.links, th.lists[r][k])
    ensures ListOk(Drop(db, th.lists[r][k]), DropFromThreads(th, r, k), r)
  {
    var l, th' := th.lists[r], DropFromThreads(th, r, k);
    assert ListOk(db, th, r) && Linked(db.links, l, k);
    assert HasParent(db.links, l, 1);
    var j :| IsParent(db.links, l, j, 1);
    WithoutPreorder(db.links, l, k);
    DroppedMembers(l, k);
    var l' := Dropped(l, k);
    forall i | 0 <= i < |l'|
      ensures l'[i] in th'.home && th'.home[l'[i]] == r
    { assert l'[i] == l[if i < k then i else i + 1]; }
  }

  lemma DropOtherList(db: Db, th: Threads, r: Id, k: nat, q: Id)
    requires Threaded(db, th) && r in th.lists && k < |th.lists[r]| && q in th.lists && q != r
    ensures ListOk(Drop(db, th.lists[r][k]), DropFromThreads(th, r, k), q)
  {
    var n := th.lists[r][k];
    var db', th' := Drop(db, n), DropFromThreads(th, r, k);
    assert ListOk(db, th, r) && Linked(db.links, th.lists[r], k) && ListOk(db, th, q);
    forall i | 0 <= i < |th.lists[q]|
      ensures Same(db.links, db'.links, th.lists[q][i]) && th.lists[q][i] in th'.home
    {
      var m := th.lists[q][i];
      assert th.home[m] == q && th.home[Next(db.links, n)] == r && th.home[Prev(db.links, n)] == r;
    }
    ListFrame(db.links, db'.links, th.lists[q]);
  }

  lemma DropThreaded(db: Db, th: Threads, r: Id, k: nat)
    requires Threaded(db, th) && r in th.lists && k < |th.lists[r]|
    requires Depth(db.links, Next(db.links, th.lists[r][k])) <= Depth(db.links, th.lists[r][k])
    ensures Threaded(Drop(db, th.lists[r][k]), DropFromThreads(th, r, k))
  {
    var db', th' := Drop(db, th.lists[r][k]), DropFromThreads(th, r, k);
    forall q | q in th'.lists
      ensures ListOk(db', th', q)
    { if q == r { DropOwnList(db, th, r, k); } else { DropOtherList(db, th, r, k, q); } }
    DropAtHome(db, th, r, k);
  }

  lemma DropAtHome(db: Db, th: Threads, r: Id, k: nat)
    requires Threaded(db, th) && r in th.lists && k < |th.lists[r]|
    ensures var th' := DropFromThreads(th, r, k);
            forall m :: m in th'.home ==> AtHome(Drop(db, th.lists[r][k]), th', m)
  {
    var l, th' := th.lists[r], DropFromThreads(th, r, k);
    forall m | m in th'.home
      ensures AtHome(Drop(db, l[k]), th', m)
    {
      assert AtHome(db, th, m);
      if th.home[m] == r {
        var i :| 0 <= i < |l| && l[i] == m;
        assert i != k;
        StillThere(l, k, i);
      }
    }
  }

  lemma StillThere(l: seq<Id>, k: nat, i: nat)
    requires k < |l| && i < |l| && i != k
    ensures |l| > 1 && l[i] in Dropped(l, k)
  {
    assert Dropped(l, k)[if i < k then i else i - 1] == l[i];
  }

  lemma DropTrees(db: Db, th: Threads, r: Id, k: nat)
    requires Threaded(db, th) && Trees(db, th) && r in th.lists && k < |th.lists[r]|
    ensures Trees(Drop(db, th.lists[r][k]), DropFromThreads(th, r, k))
  {
    var n := th.lists[r][k];
    var db', th' := Drop(db, n), DropFromThreads(th, r, k);
    var sp := InfoOf(db, n).space;
    assert TreeOk(db, th, sp);
    RemoveMembers(TreeOf(db, sp), EntryOf(db, n));
    RemoveKeepsOrder(TreeOf(db, sp), EntryOf(db, n));
    forall q
      ensures TreeOk(db', th', q)
    {
      assert TreeOk(db, th, q);
      forall x | x in TreeOf(db', q)
        ensures Live(th', x.id) && x == EntryOf(db', x.id) && InfoOf(db', x.id).space == q
      { assert x in TreeOf(db, q) && Live(th, x.id); }
    }
    forall m | Live(th', m)
      ensures InTree(db', m)
    { assert InTree(db, m) && m != n; }
  }

  /** Removing a node without children keeps the database sound and, since nothing else changes, confined. */
  lemma DropSound(db: Db, th: Threads, r: Id, k: nat)
    requires Sound(db, th) && r in th.lists && k < |th.lists[r]|
    requires Depth(db.links, Next(db.links, th.lists[r][k])) <= Depth(db.links, th.lists[r][k])
    ensures Sound(Drop(db, th.lists[r][k]), DropFromThreads(th, r, k))
    ensures Confined(db, th) ==> Confined(Drop(db, th.lists[r][k]), DropFromThreads(th, r, k))
  {
    var db', th' := Drop(db, th.lists[r][k]), DropFromThreads(th, r, k);
    DropThreaded(db, th, r, k);
    DropTrees(db, th, r, k);
    forall m | Live(th', m)
      ensures FramesOk(db', m) && (Confined(db, th) ==> RightsOk(db', m))
    {
      assert Live(th, m) && FramesOk(db, m);
      if Confined(db, th) { assert RightsOk(db, m); }
    }
  }

  /** Identifiers of objects yet to be created are used nowhere. */
  ghost predicate Unused(db: Db, th: Threads, nextId: Id) {
    && (forall n :: n in db.links.info ==> n < nextId) && (forall n :: n in db.links.prnt ==> n < nextId)
    && (forall n :: n in th.home ==> n < nextId) && (forall r :: r in th.lists ==> r < nextId)
  }

  /** The database with all spaces, updated in place. */
  class Database {
    var db: Db
    var nextId: Id
    ghost var th: Threads

    ghost predicate Valid()
      reads this
    {
      Inv(db, th) && Unused(db, th, nextId)
    }

    constructor ()
      ensures Valid() && forall n :: !Live(th, n)
    {
      db := Db(Links(map[], map[], map[], map[]), map[], map[]);
      nextId := 0;
      th := Threads(map[], map[]);
    }

    /** A root node: an object, an I/O range or a boot-time memory range enters its space. */
    method CreateRoot(space: nat, phys: nat, base: nat, order: nat, a: Rights) returns (ok: bool)
      requires Valid() && a != {} && Aligned(phys, order) && Aligned(base, order)
      modifies this
      ensures Valid()
      ensures ok <==> Free(TreeOf(old(db), space), Entry(base, order, old(nextId)))
      ensures !ok ==> db == old(db) && th == old(th)
      ensures ok ==> db == AddRoot(old(db), old(nextId), Info(space, phys, base, order, 0), a) && Live(th, old(nextId))
      ensures ok ==> forall n :: n != old(nextId) ==> (Live(th, n) <==> Live(old(th), n))
    {
      var info := Info(space, phys, base, order, 0);
      var n := nextId;
      nextId := nextId + 1;
      ok := FreeIn(TreeOf(db, space), Entry(base, order, n));
      if ok {
        AddRootInv(db, th, n, info, a);
        db := AddRoot(db, n, info, a);
        th := RootThreads(th, n);
      }
    }
  }

  /** The answer of Avl::insert on an ordered tree: no range in it overlaps e. */
  method FreeIn(t: seq<Entry>, e: Entry) returns (ok: bool)
    ensures ok <==> Free(t, e)
  {
    for i := 0 to |t|
      invariant forall j :: 0 <= j < i ==> !Overlaps(t[j], e)
    {
      if Overlaps(t[i], e) { return false; }
    }
    return true;
  }
}
