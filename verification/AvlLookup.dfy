/** Mdb::lookup (include/mdb.hpp:63-78) on the tree of a space. */
module AvlSearch {
  import opened AvlShape
  import opened Bits
  import opened Ranges
  import opened Avl

  /** A single address as a range. */
  function Point(addr: nat): Entry { Entry(addr, 0, 0) }

  lemma PointIsAddress(e: Entry, addr: nat)
    requires Wf(e)
    ensures Wf(Point(addr)) && (Equal(Point(addr), e) <==> Holds(e, addr))
    ensures SameBlock(e.base, e.order, addr, 0) <==> Holds(e, addr)
  {
    EqualIsOverlap(Point(addr), e);
    SameBlockIsOverlap(e.base, e.order, addr, 0);
  }

  /** Which node is the first one to the right of the path. */
  lemma FirstRight(q: Path<Node>, f: Frame<Node>)
    ensures var q' := Snoc(q, f);
            && (f.dir ==> RightOf(q') == RightOf(q)) && (!f.dir ==> |RightOf(q')| > 0 && RightOf(q')[0] == f.val)
  {
    SidesCat(q, Go(f, End));
  }

  lemma Around5(a: seq<Node>, b: seq<Node>, c: seq<Node>, d: seq<Node>, e: seq<Node>)
    ensures a + (b + c + d) + e == (a + b) + (c + (d + e))
  {
  }

  /** The search has met the range that holds addr. */
  lemma Hit(q: Path<Node>, sub: Tree<Node>, addr: nat, next: bool)
    requires sub.Node? && Around(q, Point(addr)) && Ordered(Keys(Flat(Plug(q, sub)))) && Holds(sub.val.key, addr)
    ensures LookupIn(Keys(Flat(Plug(q, sub))), addr, next) == Some(sub.val.key)
  {
    Exposed(q, sub);
    PlugFlat(q, sub);
    var l, r := LeftOf(q) + Flat(sub.left), [sub.val] + (Flat(sub.right) + RightOf(q));
    Around5(LeftOf(q), Flat(sub.left), [sub.val], Flat(sub.right), RightOf(q));
    KeysConcat(l, r);
    KeysConcat(LeftOf(q), Flat(sub.left));
    AllConcat(Keys(LeftOf(q)), Keys(Flat(sub.left)), Point(addr));
    assert AllBelow(Keys(l), Point(addr));
    LookupSplit(Keys(l), Keys(r), addr, next);
    assert Keys(r)[0] == sub.val.key;
  }

  /** The search has run into an empty link. */
  lemma Miss(q: Path<Node>, addr: nat, next: bool)
    requires Around(q, Point(addr))
    ensures LookupIn(Keys(Flat(Plug(q, Leaf))), addr, next)
            == if next && RightOf(q) != [] then Some(RightOf(q)[0].key) else None
  {
    PlugFlat(q, Leaf);
    var l, r := LeftOf(q), RightOf(q);
    NoLeaf(l, r);
    KeysConcat(l, r);
    LookupSplit(Keys(l), Keys(r), addr, next);
    LookupAbove(Keys(r), addr, next);
  }

  method Lookup(tr: AvlTree, addr: nat, next: bool) returns (r: Node?)
    requires tr.Valid()
    ensures LookupIn(tr.Contents(), addr, next) == if r == null then None else Some(r.key)
    ensures r != null ==> r in tr.repr
  {
    var m := tr.root;
    ghost var q, sub := End, tr.tree;
    r := null;
    while m != null
      invariant tr.tree == Plug(q, sub) && Rep(m, sub) && Around(q, Point(addr))
      invariant r == if next && RightOf(q) != [] then RightOf(q)[0] else null
      invariant r != null ==> r in tr.repr
      decreases sub
    {
      Exposed(q, sub);
      NodesPlug(q, sub);
      PointIsAddress(m.key, addr);
      if SameBlock(m.key.base, m.key.order, addr, 0) {
        Hit(q, sub, addr, next);
        return m;
      }
      var d := addr > m.key.base;
      ghost var f := Frame(d, m, m.bal, Child(sub, !d));
      AroundStep(q, sub, d, Point(addr));
      FirstRight(q, f);
      PlugSnoc(q, f, End, Child(sub, d));
      CatEnd(Snoc(q, f));
      if !d && next { r := m; }
      q, sub := Snoc(q, f), Child(sub, d);
      m := m.Lnk(d);
    }
    Miss(q, addr, next);
  }
}
