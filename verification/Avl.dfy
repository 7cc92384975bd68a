/** The AVL tree of src/avl.cpp and include/mdb.hpp on linked nodes: links are followed and rewritten in place,
    and a pointer to a link is a `Link`. */
module Avl {
  import opened Lists
  import opened AvlShape
  import opened Ranges

  class Node {
    const key: Entry
    var lnk0: Node?
    var lnk1: Node?
    var bal: nat

    constructor (key: Entry)
      ensures this.key == key && lnk0 == null && lnk1 == null && bal == 2
    {
      this.key := key;
      lnk0, lnk1, bal := null, null, 2;
    }

    function Lnk(d: bool): Node?
      reads this
    {
      if d then lnk1 else lnk0
    }

    method SetLnk(d: bool, v: Node?)
      modifies this
      ensures Lnk(d) == v && Lnk(!d) == old(Lnk(!d)) && bal == old(bal)
    {
      if d { lnk1 := v; } else { lnk0 := v; }
    }
  }

  /** Where a pointer to a node is stored. */
  datatype Link = Root | Below(n: Node, d: bool)

  function Keys(s: seq<Node>): (k: seq<Entry>)
    ensures |k| == |s|
    ensures forall i :: 0 <= i < |s| ==> k[i] == s[i].key
  {
    seq(|s|, i requires 0 <= i < |s| => s[i].key)
  }

  // ----- which nodes a tree or a path consists of

  ghost function Nodes(t: Tree<Node>): set<Node> {
    if t.Leaf? then {} else Nodes(t.left) + {t.val} + Nodes(t.right)
  }

  ghost function PNodes(p: Path<Node>): set<Node> {
    if p.End? then {} else {p.f.val} + Nodes(p.f.other) + PNodes(p.rest)
  }

  /** No node occurs twice. */
  ghost predicate Sep(t: Tree<Node>) {
    t.Node? ==>
      && Sep(t.left) && Sep(t.right)
      && t.val !in Nodes(t.left) && t.val !in Nodes(t.right) && Nodes(t.left) !! Nodes(t.right)
  }

  ghost predicate PSep(p: Path<Node>) {
    p.Go? ==>
      && Sep(p.f.other) && PSep(p.rest)
      && p.f.val !in Nodes(p.f.other) && p.f.val !in PNodes(p.rest) && Nodes(p.f.other) !! PNodes(p.rest)
  }

  function Elems(s: seq<Node>): set<Node> { set x | x in s }

  lemma ElemsConcat(s: seq<Node>, r: seq<Node>)
    ensures Elems(s + r) == Elems(s) + Elems(r)
  {
  }

  lemma {:induction false} NodesFlat(t: Tree<Node>)
    ensures Nodes(t) == Elems(Flat(t))
  {
    if t.Node? {
      NodesFlat(t.left);
      NodesFlat(t.right);
      ElemsConcat(Flat(t.left), [t.val]);
      ElemsConcat(Flat(t.left) + [t.val], Flat(t.right));
    }
  }

  lemma {:induction false} NodesPlug(p: Path<Node>, t: Tree<Node>)
    ensures Nodes(Plug(p, t)) == PNodes(p) + Nodes(t)
  {
    if p.Go? { NodesPlug(p.rest, t); }
  }

  lemma {:induction false} PNodesCat(p: Path<Node>, q: Path<Node>)
    ensures PNodes(Cat(p, q)) == PNodes(p) + PNodes(q)
  {
    if p.Go? { PNodesCat(p.rest, q); }
  }

  lemma {:induction false} SepPlug(p: Path<Node>, t: Tree<Node>)
    ensures Sep(Plug(p, t)) <==> PSep(p) && Sep(t) && PNodes(p) !! Nodes(t)
  {
    if p.Go? {
      SepPlug(p.rest, t);
      NodesPlug(p.rest, t);
    }
  }

  lemma {:induction false} PSepCat(p: Path<Node>, q: Path<Node>)
    ensures PSep(Cat(p, q)) <==> PSep(p) && PSep(q) && PNodes(p) !! PNodes(q)
  {
    if p.Go? {
      PSepCat(p.rest, q);
      PNodesCat(p.rest, q);
    }
  }

  lemma DistinctParts(l: seq<Node>, x: Node, r: seq<Node>)
    requires Distinct(l + [x] + r)
    ensures Distinct(l) && Distinct(r) && x !in Elems(l) && x !in Elems(r) && Elems(l) !! Elems(r)
  {
    var s := l + [x] + r;
    assert forall i :: 0 <= i < |l| ==> l[i] == s[i];
    assert forall i :: 0 <= i < |r| ==> r[i] == s[|l| + 1 + i];
    assert s[|l|] == x;
  }

  lemma {:induction false} DistinctSep(t: Tree<Node>)
    requires Distinct(Flat(t))
    ensures Sep(t)
  {
    if t.Node? {
      DistinctParts(Flat(t.left), t.val, Flat(t.right));
      DistinctSep(t.left);
      DistinctSep(t.right);
      NodesFlat(t.left);
      NodesFlat(t.right);
    }
  }

  lemma OrderedDistinct(s: seq<Node>)
    requires Ordered(Keys(s))
    ensures Distinct(s)
  {
    forall i, j | 0 <= i < j < |s|
      ensures s[i] != s[j]
    {
      assert Keys(s)[i] == s[i].key && Keys(s)[j] == s[j].key;
      assert Top(Keys(s)[i]) <= Keys(s)[j].base;
    }
  }

  // ----- how memory represents them

  ghost predicate Rep(n: Node?, t: Tree<Node>)
    reads Nodes(t)
  {
    if t.Leaf? then n == null
    else n == t.val && t.val.bal == t.bal && Rep(t.val.lnk0, t.left) && Rep(t.val.lnk1, t.right)
  }

  /** From link value n the path p leads to link value m. */
  ghost predicate Seg(n: Node?, p: Path<Node>, m: Node?)
    reads PNodes(p)
    decreases p
  {
    if p.End? then n == m else
    && n == p.f.val && p.f.val.bal == p.f.bal
    && Rep(p.f.val.Lnk(!p.f.dir), p.f.other) && Seg(p.f.val.Lnk(p.f.dir), p.rest, m)
  }

  ghost function Tail(n: Node?, p: Path<Node>): Node?
    reads PNodes(p)
    decreases p
  {
    if p.End? then n else Tail(p.f.val.Lnk(p.f.dir), p.rest)
  }

  /** The link at the end of a path that starts at link l. */
  function EndLink(l: Link, p: Path<Node>): Link
    decreases p
  {
    if p.End? then l else EndLink(Below(p.f.val, p.f.dir), p.rest)
  }

  lemma {:induction false} SegTail(n: Node?, p: Path<Node>, m: Node?)
    requires Seg(n, p, m)
    ensures m == Tail(n, p)
    decreases p
  {
    if p.Go? { SegTail(p.f.val.Lnk(p.f.dir), p.rest, m); }
  }

  lemma {:induction false} RepPlug(n: Node?, p: Path<Node>, t: Tree<Node>)
    ensures PNodes(p) <= Nodes(Plug(p, t)) && Nodes(t) <= Nodes(Plug(p, t))
    ensures Rep(n, Plug(p, t)) <==> Seg(n, p, Tail(n, p)) && Rep(Tail(n, p), t)
    decreases p
  {
    NodesPlug(p, t);
    if p.Go? { RepPlug(p.f.val.Lnk(p.f.dir), p.rest, t); }
  }

  lemma {:induction false} SegCat(n: Node?, p: Path<Node>, q: Path<Node>, m: Node?)
    ensures PNodes(Cat(p, q)) == PNodes(p) + PNodes(q)
    ensures Seg(n, Cat(p, q), m) <==> Seg(n, p, Tail(n, p)) && Seg(Tail(n, p), q, m)
    decreases p
  {
    PNodesCat(p, q);
    if p.Go? { SegCat(p.f.val.Lnk(p.f.dir), p.rest, q, m); }
  }

  /** The last frame of a path. */
  lemma SegSnoc(n: Node?, p: Path<Node>, f: Frame<Node>, m: Node?)
    ensures PNodes(Snoc(p, f)) == PNodes(p) + {f.val} + Nodes(f.other)
    ensures Seg(n, Snoc(p, f), m) <==>
      && Seg(n, p, f.val) && f.val.bal == f.bal
      && Rep(f.val.Lnk(!f.dir), f.other) && f.val.Lnk(f.dir) == m
  {
    SegCat(n, p, Go(f, End), m);
    if Seg(n, p, f.val) { SegTail(n, p, f.val); }
  }

  lemma {:induction false} EndLinkCat(l: Link, p: Path<Node>, q: Path<Node>)
    ensures EndLink(l, Cat(p, q)) == EndLink(EndLink(l, p), q)
    decreases p
  {
    if p.Go? { EndLinkCat(Below(p.f.val, p.f.dir), p.rest, q); }
  }

  /** A path that is not empty has a last frame. */
  lemma {:induction false} LastFrame(p: Path<Node>) returns (q: Path<Node>, f: Frame<Node>)
    requires p.Go?
    ensures p == Snoc(q, f)
  {
    if p.rest.End? {
      q, f := End, p.f;
    } else {
      q, f := LastFrame(p.rest);
      q := Go(p.f, q);
    }
  }

  /** The tree of one space. */
  class AvlTree {
    var root: Node?
    ghost var tree: Tree<Node>
    ghost var repr: set<Node>

    /** Memory holds `tree`, which is balanced and in order. */
    ghost predicate Valid()
      reads this, repr
    {
      repr == Nodes(tree) && Rep(root, tree) && AvlShape.Avl(tree) && Ordered(Keys(Flat(tree)))
    }

    /** The ranges in ascending order. */
    ghost function Contents(): seq<Entry>
      reads this
    {
      Keys(Flat(tree))
    }

    constructor ()
      ensures Valid() && Contents() == [] && repr == {}
    {
      root, tree, repr := null, Leaf, {};
    }

    function Load(l: Link): Node?
      reads this, if l.Below? then {l.n} else {}
    {
      if l.Root? then root else l.n.Lnk(l.d)
    }

    /** Storing to the link at the end of a path redirects the path and nothing else. */
    method Store(l: Link, v: Node?, ghost p: Path<Node>)
      requires l == EndLink(Root, p) && PSep(p) && PNodes(p) <= repr && Seg(root, p, Load(l))
      modifies this`root, if l.Below? then {l.n} else {}
      ensures Seg(root, p, v) && Load(l) == v
      ensures l.Below? ==> root == old(root) && l.n.bal == old(l.n.bal) && l.n.Lnk(!l.d) == old(l.n.Lnk(!l.d))
    {
      if l.Root? {
        EndLinkRoot(p);
        root := v;
      } else {
        ghost var q, f := LastLink(p, l);
        SegSnoc(root, q, f, Load(l));
        PSepCat(q, Go(f, End));
        l.n.SetLnk(l.d, v);
        SegSnoc(root, q, f, v);
      }
    }

    /** The value stored at the end of a path through the tree is the subtree found there. */
    lemma LoadEnd(l: Link, p: Path<Node>, t: Tree<Node>)
      requires l == EndLink(Root, p) && Rep(root, Plug(p, t))
      ensures Seg(root, p, Load(l)) && Rep(Load(l), t)
    {
      RepPlug(root, p, t);
      if l.Root? {
        EndLinkRoot(p);
      } else {
        var q, f := LastLink(p, l);
        SegSnoc(root, q, f, Tail(root, p));
      }
    }

    /** The link at the end of a path, the path and the subtree below it share no node. */
    lemma OpenAt(l: Link, p: Path<Node>, t: Tree<Node>)
      requires l == EndLink(Root, p) && Rep(root, Plug(p, t)) && Sep(Plug(p, t)) && Nodes(Plug(p, t)) <= repr
      ensures Seg(root, p, Load(l)) && Rep(Load(l), t) && PSep(p) && Sep(t) && PNodes(p) !! Nodes(t)
      ensures PNodes(p) <= repr && Nodes(t) <= repr && (l.Below? ==> l.n in PNodes(p))
    {
      LoadEnd(l, p, t);
      LinkNode(l, p);
      SepPlug(p, t);
      NodesPlug(p, t);
    }

    lemma CloseAt(p: Path<Node>, n: Node?, t: Tree<Node>)
      requires Seg(root, p, n) && Rep(n, t)
      ensures Rep(root, Plug(p, t))
    {
      SegTail(root, p, n);
      RepPlug(root, p, t);
    }

    /** Avl::rotate (Avl *&, bool) */
    method RotateSingle(l: Link, d: bool, ghost p: Path<Node>, ghost t: Tree<Node>) returns (r: Node?)
      requires t.Node? && Child(t, d).Node? && l == EndLink(Root, p)
      requires Rep(root, Plug(p, t)) && Sep(Plug(p, t)) && Nodes(Plug(p, t)) <= repr
      modifies this`root, repr
      ensures Rep(root, Plug(p, Rotate1(t, d)))
      ensures Rep(r, Child(Child(t, d), d))
    {
      OpenAt(l, p, t);
      var node := Load(l);
      var top := node.Lnk(d);
      Store(l, top, p);
      r := Rewire1(node, d, t, repr);
      CloseAt(p, top, Rotate1(t, d));
    }

    /** Avl::rotate (Avl *&, bool, unsigned) */
    method RotateDouble(l: Link, d: bool, b: nat, ghost p: Path<Node>, ghost t: Tree<Node>) returns (r: Node?)
      requires t.Node? && Child(t, d).Node? && Child(Child(t, d), !d).Node? && l == EndLink(Root, p) && b <= 2
      requires Rep(root, Plug(p, t)) && Sep(Plug(p, t)) && Nodes(Plug(p, t)) <= repr
      modifies this`root, repr
      ensures Rep(root, Plug(p, Rotate2(t, d, b)))
      ensures if b == 2 then r == null else Rep(r, Child(Child(Child(t, d), !d), b == 1))
    {
      OpenAt(l, p, t);
      var node := Load(l);
      var top := Grandchild(node, d, t);
      assert node in Nodes(t) && Child(t, d).val in Nodes(t) && top in Nodes(t);
      Store(l, top, p);
      assert Rep(node, t);
      r := Rewire2(node, d, b, t, repr);
      CloseAt(p, top, Rotate2(t, d, b));
    }

    /** The last loop of Avl::insert: every node on the path q below the path p leans towards x. */
    method LeanTowards(start: Node?, x: Node, ghost p: Path<Node>, ghost q: Path<Node>)
      requires Rep(root, Plug(Cat(p, q), Single(x))) && Sep(Plug(Cat(p, q), Single(x)))
      requires Nodes(Plug(Cat(p, q), Single(x))) <= repr
      requires Rep(start, Plug(q, Single(x))) && Directed(q, x.key)
      modifies repr
      ensures Rep(root, Plug(Cat(p, Grow(q)), Single(x)))
    {
      var n := start;
      ghost var above, rest := p, q;
      while n != null && !Equal(x.key, n.key)
        invariant Rep(root, Plug(Cat(above, rest), Single(x))) && Sep(Plug(Cat(above, rest), Single(x)))
        invariant Nodes(Plug(Cat(above, rest), Single(x))) <= repr
        invariant Rep(n, Plug(rest, Single(x))) && Directed(rest, x.key)
        invariant Cat(above, Grow(rest)) == Cat(p, Grow(q))
        decreases rest
      {
        EqualSelf(x.key);
        var d := Larger(x.key, n.key);
        ghost var f, t := rest.f, Plug(rest.rest, Single(x));
        PlugCat(above, rest, Single(x));
        NodesPlug(above, Fill(f, t));
        SetBal(n, Side(d), above, f, t);
        n := n.Lnk(d);
        f := f.(bal := Side(d));
        PlugSnoc(above, f, rest.rest, Single(x));
        CatAssoc(above, Go(f, End), Grow(rest.rest));
        above, rest := Snoc(above, f), rest.rest;
      }
      CatEnd(above);
    }

    /** The first loop of Avl::insert: the path a search for k takes, cut at the last unbalanced node. */
    method Descend(k: Entry) returns (fits: bool, l: Link, p: Link, ghost a: Path<Node>, ghost b: Path<Node>)
      requires Valid() && Wf(k)
      ensures fits <==> Free(Contents(), k)
      ensures fits ==> Reached(tree, a, b, Leaf, l, p, k)
    {
      l, p := Root, Root;
      a, b := End, End;
      ghost var sub := tree;
      var n := root;
      while n != null
        invariant Reached(tree, a, b, sub, l, p, k)
        invariant Rep(n, sub)
        decreases sub
      {
        Exposed(Cat(a, b), sub);
        EqualIsOverlap(k, n.key);
        if Equal(k, n.key) {
          fits := false;
          return;
        }
        var d := Larger(k, n.key);
        a, b := ReachedStep(tree, a, b, sub, l, p, k, d);
        if n.bal != 2 { p := l; }
        l := Below(n, d);
        sub := Child(sub, d);
        n := n.Lnk(d);
      }
      fits := true;
      AroundFree(Cat(a, b), k);
    }

    /** The repair Avl::insert makes at its last unbalanced node. */
    method InsertRepair(node: Node, p: Link, ghost a: Path<Node>, ghost b: Path<Node>)
      requires Rep(root, Plug(Cat(a, b), Single(node))) && Sep(Plug(Cat(a, b), Single(node)))
      requires Nodes(Plug(Cat(a, b), Single(node))) <= repr
      requires InsertPoint(b) && Directed(b, node.key) && p == EndLink(Root, a)
      modifies this`root, repr
      ensures Rep(root, Plug(a, InsertTree(b, node)))
    {
      ghost var x := Single(node);
      ghost var t := Plug(b, x);
      PlugCat(a, b, x);
      LoadEnd(p, a, t);
      InsertPointShape(b);
      var n := Load(p);
      var d1 := Larger(node.key, n.key);
      if n.bal != Side(d1) {
        NodesPlug(a, t);
        SetBal(n, 2, a, b.f, Plug(b.rest, x));
        PlugSnoc(a, b.f.(bal := 2), b.rest, x);
        LeanTowards(n.Lnk(d1), node, Snoc(a, b.f.(bal := 2)), b.rest);
        PlugSnoc(a, b.f.(bal := 2), Grow(b.rest), x);
      } else {
        assert Rep(n.Lnk(d1), Plug(b.rest, x));
        var d2 := Larger(node.key, n.Lnk(d1).key);
        ghost var f, g, r := b.f, b.rest.f, b.rest.rest;
        if d1 == d2 {
          Rotate1Path(f, g, r, x);
          var m := RotateSingle(p, d1, a, t);
          RotateSep(a, t, d1, 2);
          PlugSnoc(a, Lifted(f, g), r, x);
          LeanTowards(m, node, Snoc(a, Lifted(f, g)), r);
          PlugSnoc(a, Lifted(f, g), Grow(r), x);
        } else {
          InsertRepairDouble(node, p, n.Lnk(d1), d1, a, b);
        }
      }
    }

    /** The branch of the repair that rotates twice. */
    method InsertRepairDouble(node: Node, p: Link, c: Node, d: bool, ghost a: Path<Node>, ghost b: Path<Node>)
      requires Rep(root, Plug(a, Plug(b, Single(node)))) && Sep(Plug(a, Plug(b, Single(node))))
      requires Nodes(Plug(a, Plug(b, Single(node)))) <= repr
      requires InsertPoint(b) && Directed(b, node.key) && p == EndLink(Root, a)
      requires d == b.f.dir && b.f.bal == Side(d) && b.rest.Go? && b.rest.f.dir != d
      requires Rep(c, Plug(b.rest, Single(node)))
      modifies this`root, repr
      ensures Rep(root, Plug(a, InsertTree(b, node)))
    {
      ghost var x := Single(node);
      ghost var t, f, g, r := Plug(b, x), b.f, b.rest.f, b.rest.rest;
      assert Plug(b.rest, x) == Fill(g, Plug(r, x)) && Rep(c.Lnk(!d), Plug(r, x));
      var n := c.Lnk(!d);
      InsertPointShape(b);
      assert Directed(b.rest, node.key) && Directed(r, node.key);
      assert r.Go? ==> n == r.f.val && !Equal(node.key, r.f.val.key);
      if Equal(node.key, n.key) {
        var m := RotateDouble(p, d, 2, a, t);
      } else {
        EqualSelf(node.key);
        InsertRepairInner(node, p, d, Side(Larger(node.key, n.key)), a, b);
      }
    }

    method InsertRepairInner(node: Node, p: Link, d: bool, side: nat, ghost a: Path<Node>, ghost b: Path<Node>)
      requires Rep(root, Plug(a, Plug(b, Single(node)))) && Sep(Plug(a, Plug(b, Single(node))))
      requires Nodes(Plug(a, Plug(b, Single(node)))) <= repr
      requires InsertPoint(b) && Directed(b, node.key) && p == EndLink(Root, a)
      requires d == b.f.dir && b.f.bal == Side(d) && b.rest.Go? && b.rest.f.dir != d
      requires b.rest.rest.Go? && side == Side(b.rest.rest.f.dir)
      modifies this`root, repr
      ensures Rep(root, Plug(a, InsertTree(b, node)))
    {
      ghost var x := Single(node);
      ghost var t, f, g, k, q := Plug(b, x), b.f, b.rest.f, b.rest.rest.f, b.rest.rest.rest;
      assert b == Go(f, Go(g, Go(k, q)));
      assert Directed(b.rest, node.key) && Directed(b.rest.rest, node.key) && Directed(q, node.key);
      Rotate2Path(f, g, k, q, x);
      var m := RotateDouble(p, d, side, a, t);
      RotateSep(a, t, d, side);
      ghost var two := TwoLifted(f, g, k);
      LiftedPlug(a, f, g, k, q, x);
      LiftedPlug(a, f, g, k, Grow(q), x);
      LeanTowards(m, node, Cat(a, two), q);
      assert Plug(a, InsertTree(b, node)) == Plug(Cat(Cat(a, two), Grow(q)), x) by {
        InsertPointShape(b);
      }
    }

    /** Avl::insert */
    method Insert(node: Node) returns (ok: bool)
      requires Valid() && Wf(node.key)
      requires node !in repr && node.lnk0 == null && node.lnk1 == null && node.bal == 2
      modifies this, repr, node
      ensures Valid()
      ensures ok <==> Free(old(Contents()), node.key)
      ensures ok ==> Contents() == InsertAt(old(Contents()), node.key) && repr == old(repr) + {node}
      ensures !ok ==> tree == old(tree) && repr == old(repr) && unchanged(old(repr)) && unchanged(node)
    {
      var l, p;
      ghost var a, b;
      ok, l, p, a, b := Descend(node.key);
      if !ok { return; }
      ghost var q := Cat(a, b);
      LinkIn(l, node, q);
      tree := Rebalance(node, p, a, b);
      InsertedBetween(q, node, tree);
      InsertedNodes(q, node, tree);
    }

    /** Avl::insert from the new link on. */
    method Rebalance(node: Node, p: Link, ghost a: Path<Node>, ghost b: Path<Node>) returns (ghost t: Tree<Node>)
      requires Rep(root, Plug(Cat(a, b), Single(node))) && Sep(Plug(Cat(a, b), Single(node)))
      requires repr == Nodes(Plug(Cat(a, b), Single(node)))
      requires p == EndLink(Root, a) && Directed(Cat(a, b), node.key) && PathOk(Cat(a, b), 0)
      requires if b.Go? && b.f.bal != 2 then AllBalanced(b.rest) else a.End? && AllBalanced(b)
      modifies this`root, repr
      ensures Rep(root, t) && AvlShape.Avl(t) && Flat(t) == LeftOf(Cat(a, b)) + [node] + RightOf(Cat(a, b))
    {
      PathCat(a, b, 0);
      DirectedCat(a, b, node.key);
      PlugCat(a, b, Single(node));
      LoadEnd(p, a, Plug(b, Single(node)));
      var n := Load(p);
      if n.bal != 2 {
        InsertRepair(node, p, a, b);
        t := Plug(a, InsertTree(b, node));
        InsertTreeOk(a, b, node);
      } else {
        LeanTowards(n, node, a, b);
        t := Plug(Grow(b), Single(node));
        GrowTreeOk(b, node);
      }
    }

    /** The new node is hung at the empty link the search has found. */
    method LinkIn(l: Link, node: Node, ghost q: Path<Node>)
      requires Valid() && tree == Plug(q, Leaf) && l == EndLink(Root, q)
      requires node !in repr && node.lnk0 == null && node.lnk1 == null && node.bal == 2
      modifies this`root, this`repr, repr
      ensures Rep(root, Plug(q, Single(node))) && Sep(Plug(q, Single(node)))
      ensures repr == old(repr) + {node} && repr == Nodes(Plug(q, Single(node)))
      ensures PathOk(q, 0)
    {
      PlugAvl(q, Leaf);
      OrderedDistinct(Flat(tree));
      DistinctSep(tree);
      OpenAt(l, q, Leaf);
      NodesPlug(q, Leaf);
      Store(l, node, q);
      CloseAt(q, node, Single(node));
      SepPlug(q, Single(node));
      NodesPlug(q, Single(node));
      repr := repr + {node};
    }

    /** Changing the balance of one node of the tree. */
    method SetBal(n: Node, b: nat, ghost p: Path<Node>, ghost f: Frame<Node>, ghost t: Tree<Node>)
      requires Rep(root, Plug(p, Fill(f, t))) && Sep(Plug(p, Fill(f, t))) && Nodes(Plug(p, Fill(f, t))) <= repr
      requires n == f.val
      modifies n`bal
      ensures Rep(root, Plug(p, Fill(f.(bal := b), t))) && Sep(Plug(p, Fill(f.(bal := b), t)))
      ensures Nodes(Plug(p, Fill(f.(bal := b), t))) <= repr
      ensures Rep(n.Lnk(f.dir), t)
    {
      RepPlug(root, p, Fill(f, t));
      SepPlug(p, Fill(f, t));
      SepPlug(p, Fill(f.(bal := b), t));
      NodesPlug(p, Fill(f, t));
      NodesPlug(p, Fill(f.(bal := b), t));
      n.bal := b;
      RepPlug(root, p, Fill(f.(bal := b), t));
    }
  }

  /** A single rotation below its top link. */
  method Rewire1(node: Node, d: bool, ghost t: Tree<Node>, ghost s: set<Node>) returns (r: Node?)
    requires t.Node? && Child(t, d).Node? && Rep(node, t) && Sep(t) && Nodes(t) <= s
    modifies node, Child(t, d).val
    ensures Rep(Child(t, d).val, Rotate1(t, d))
    ensures Rep(r, Child(Child(t, d), d))
  {
    ghost var c := Child(t, d);
    assert Rep(node.Lnk(d), c) && Rep(node.Lnk(!d), Child(t, !d));
    var top := node.Lnk(d);
    assert Rep(top.Lnk(d), Child(c, d)) && Rep(top.Lnk(!d), Child(c, !d));
    node.SetLnk(d, top.Lnk(!d));
    top.SetLnk(!d, node);
    node.bal := 2;
    top.bal := 2;
    r := top.Lnk(d);
    assert Rep(top.Lnk(d), Child(c, d)) && Rep(node.Lnk(d), Child(c, !d)) && Rep(node.Lnk(!d), Child(t, !d));
    assert Rep(node, Mk(d, t.val, 2, Child(c, !d), Child(t, !d)));
  }

  /** A double rotation below its top link. */
  method Grandchild(n: Node, d: bool, ghost t: Tree<Node>) returns (top: Node)
    requires t.Node? && Child(t, d).Node? && Child(Child(t, d), !d).Node? && Rep(n, t)
    ensures top == Child(Child(t, d), !d).val
  {
    ghost var c := Child(t, d);
    assert Rep(n.Lnk(d), c) && Rep(c.val.Lnk(!d), Child(c, !d));
    top := n.Lnk(d).Lnk(!d);
  }

  method Rewire2(node0: Node, d: bool, b: nat, ghost t: Tree<Node>, ghost s: set<Node>) returns (r: Node?)
    requires t.Node? && Child(t, d).Node? && Child(Child(t, d), !d).Node? && b <= 2
    requires Rep(node0, t) && Sep(t) && Nodes(t) <= s
    modifies node0, Child(t, d).val, Child(Child(t, d), !d).val
    ensures Rep(Child(Child(t, d), !d).val, Rotate2(t, d, b))
    ensures if b == 2 then r == null else Rep(r, Child(Child(Child(t, d), !d), b == 1))
  {
    ghost var c := Child(t, d);
    ghost var g := Child(c, !d);
    assert Rep(node0.Lnk(d), c) && Rep(node0.Lnk(!d), Child(t, !d));
    var node1 := node0.Lnk(d);
    assert Rep(node1.Lnk(!d), g) && Rep(node1.Lnk(d), Child(c, d));
    var top := node1.Lnk(!d);
    assert Rep(top.Lnk(d), Child(g, d)) && Rep(top.Lnk(!d), Child(g, !d));
    assert Sep(c) && Sep(g);
    assert node0 !in Nodes(c) && node1 !in Nodes(g);
    r := Relink2(node0, node1, top, d, b);
    assert Rep(node0.Lnk(d), Child(g, !d)) && Rep(node0.Lnk(!d), Child(t, !d));
    assert Rep(node1.Lnk(!d), Child(g, d)) && Rep(node1.Lnk(d), Child(c, d));
    assert Rep(node1, Mk(d, c.val, if b == Side(!d) then Side(d) else 2, Child(c, d), Child(g, d)));
    assert Rep(node0, Mk(d, t.val, if b == Side(d) then Side(!d) else 2, Child(g, !d), Child(t, !d)));
  }

  method Relink2(node0: Node, node1: Node, top: Node, d: bool, b: nat) returns (r: Node?)
    requires node0 != node1 && node1 != top && node0 != top && b <= 2
    modifies node0, node1, top
    ensures node0.Lnk(d) == old(top.Lnk(!d)) && node0.Lnk(!d) == old(node0.Lnk(!d))
    ensures node1.Lnk(!d) == old(top.Lnk(d)) && node1.Lnk(d) == old(node1.Lnk(d))
    ensures top.Lnk(d) == node1 && top.Lnk(!d) == node0 && top.bal == 2
    ensures node1.bal == (if b == Side(!d) then Side(d) else 2)
    ensures node0.bal == (if b == Side(d) then Side(!d) else 2)
    ensures r == if b == 2 then null else old(top.Lnk(b == 1))
  {
    node0.SetLnk(d, top.Lnk(!d));
    node1.SetLnk(!d, top.Lnk(d));
    top.SetLnk(d, node1);
    top.SetLnk(!d, node0);
    top.bal := 2;
    node0.bal := 2;
    node1.bal := 2;
    if b == 2 {
      r := null;
    } else {
      var tilted := if b != Side(d) then node1 else node0;
      tilted.bal := 1 - b;
      var other := if b == Side(d) then node1 else node0;
      r := other.Lnk(b == 0);
    }
  }

  /** The two frames a double rotation leaves on the path. */
  ghost function TwoLifted(f: Frame<Node>, g: Frame<Node>, k: Frame<Node>): Path<Node> {
    if k.dir == f.dir then LiftedOuter(f, g, k, End) else LiftedInner(f, g, k, End)
  }

  lemma LiftedPlug(a: Path<Node>, f: Frame<Node>, g: Frame<Node>, k: Frame<Node>, q: Path<Node>, x: Tree<Node>)
    ensures Plug(Cat(Cat(a, TwoLifted(f, g, k)), q), x)
            == Plug(a, Plug(if k.dir == f.dir then LiftedOuter(f, g, k, q) else LiftedInner(f, g, k, q), x))
  {
    var two := TwoLifted(f, g, k);
    assert Cat(two, q) == Go(two.f, Cat(two.rest, q)) && Cat(two.rest, q) == Go(two.rest.f, Cat(two.rest.rest, q));
    assert Cat(two, q) == if k.dir == f.dir then LiftedOuter(f, g, k, q) else LiftedInner(f, g, k, q);
    CatAssoc(a, two, q);
    PlugCat(a, Cat(two, q), x);
  }

  /** Rotations keep the set of nodes. */
  lemma RotateSep(p: Path<Node>, t: Tree<Node>, d: bool, b: nat)
    requires t.Node? && Child(t, d).Node? && Sep(Plug(p, t))
    ensures Sep(Plug(p, Rotate1(t, d))) && Nodes(Plug(p, Rotate1(t, d))) == Nodes(Plug(p, t))
    ensures Child(Child(t, d), !d).Node? ==>
      Sep(Plug(p, Rotate2(t, d, b))) && Nodes(Plug(p, Rotate2(t, d, b))) == Nodes(Plug(p, t))
  {
    SepPlug(p, t);
    NodesPlug(p, t);
    RotateSepHere(t, d, b);
    SepPlug(p, Rotate1(t, d));
    NodesPlug(p, Rotate1(t, d));
    if Child(Child(t, d), !d).Node? {
      SepPlug(p, Rotate2(t, d, b));
      NodesPlug(p, Rotate2(t, d, b));
    }
  }

  lemma RotateSepHere(t: Tree<Node>, d: bool, b: nat)
    requires t.Node? && Child(t, d).Node? && Sep(t)
    ensures Sep(Rotate1(t, d)) && Nodes(Rotate1(t, d)) == Nodes(t)
    ensures Child(Child(t, d), !d).Node? ==> Sep(Rotate2(t, d, b)) && Nodes(Rotate2(t, d, b)) == Nodes(t)
  {
    var c := Child(t, d);
    assert Sep(c) && Nodes(c) == Nodes(Child(c, d)) + {c.val} + Nodes(Child(c, !d));
    if Child(c, !d).Node? {
      var g := Child(c, !d);
      assert Sep(g) && Nodes(g) == Nodes(Child(g, d)) + {g.val} + Nodes(Child(g, !d));
    }
  }

  /** Every turn of the path is the one a search for k takes, and no node on it overlaps k. */
  ghost predicate Directed(p: Path<Node>, k: Entry) {
    p.Go? ==> p.f.dir == Larger(k, p.f.val.key) && !Equal(k, p.f.val.key) && Directed(p.rest, k)
  }

  lemma KeysConcat(s: seq<Node>, r: seq<Node>)
    ensures Keys(s + r) == Keys(s) + Keys(r)
  {
  }

  /** Everything to the left of the path lies below k, everything to the right above it. */
  ghost predicate Around(p: Path<Node>, k: Entry) {
    AllBelow(Keys(LeftOf(p)), k) && AllAbove(Keys(RightOf(p)), k)
  }

  /** The node on top of a subtree of an ordered tree: it is in the tree, and between its own subtrees. */
  lemma Exposed(p: Path<Node>, sub: Tree<Node>)
    requires sub.Node? && Ordered(Keys(Flat(Plug(p, sub))))
    ensures sub.val.key in Keys(Flat(Plug(p, sub))) && Wf(sub.val.key)
    ensures AllBelow(Keys(Flat(sub.left)), sub.val.key) && AllAbove(Keys(Flat(sub.right)), sub.val.key)
  {
    PlugFlat(p, sub);
    var l, r := LeftOf(p) + Flat(sub.left), Flat(sub.right) + RightOf(p);
    Surround(LeftOf(p), Flat(sub.left), [sub.val], Flat(sub.right), RightOf(p));
    KeysConcat(l, [sub.val]);
    KeysConcat(l + [sub.val], r);
    assert Keys([sub.val]) == [sub.val.key];
    OrderedMiddle(Keys(l), sub.val.key, Keys(r));
    KeysConcat(LeftOf(p), Flat(sub.left));
    KeysConcat(Flat(sub.right), RightOf(p));
    AllConcat(Keys(LeftOf(p)), Keys(Flat(sub.left)), sub.val.key);
    AllConcat(Keys(Flat(sub.right)), Keys(RightOf(p)), sub.val.key);
  }

  lemma OrderedMiddle(l: seq<Entry>, e: Entry, r: seq<Entry>)
    requires Ordered(l + [e] + r)
    ensures e in l + [e] + r && Wf(e) && AllBelow(l, e) && AllAbove(r, e)
  {
    var s := l + [e] + r;
    assert s[|l|] == e;
    forall i | 0 <= i < |l|
      ensures Top(l[i]) <= e.base
    { assert s[i] == l[i] && Top(s[i]) <= s[|l|].base; }
    forall i | 0 <= i < |r|
      ensures Top(e) <= r[i].base
    { assert s[|l| + 1 + i] == r[i] && Top(s[|l|]) <= s[|l| + 1 + i].base; }
  }

  lemma AllBelowTrans(s: seq<Entry>, e: Entry, k: Entry)
    requires AllBelow(s, e) && Top(e) <= k.base
    ensures AllBelow(s, k)
  {
  }

  lemma AllAboveTrans(s: seq<Entry>, e: Entry, k: Entry)
    requires AllAbove(s, e) && Top(k) <= e.base
    ensures AllAbove(s, k)
  {
  }

  lemma AllConcat(s: seq<Entry>, r: seq<Entry>, k: Entry)
    ensures AllBelow(s + r, k) <==> AllBelow(s, k) && AllBelow(r, k)
    ensures AllAbove(s + r, k) <==> AllAbove(s, k) && AllAbove(r, k)
  {
    assert forall i :: 0 <= i < |s| ==> (s + r)[i] == s[i];
    assert forall i :: 0 <= i < |r| ==> (s + r)[|s| + i] == r[i];
  }

  /** A node that does not overlap k has all of its left or all of its right side out of k's way. */
  lemma AroundStep(p: Path<Node>, sub: Tree<Node>, d: bool, k: Entry)
    requires sub.Node? && Around(p, k) && Wf(k) && Wf(sub.val.key)
    requires AllBelow(Keys(Flat(sub.left)), sub.val.key) && AllAbove(Keys(Flat(sub.right)), sub.val.key)
    requires !Equal(k, sub.val.key) && d == Larger(k, sub.val.key)
    ensures Around(Snoc(p, Frame(d, sub.val, sub.bal, Child(sub, !d))), k)
  {
    var f := Frame(d, sub.val, sub.bal, Child(sub, !d));
    SidesCat(p, Go(f, End));
    assert LeftOf(Go(f, End)) == Before(f) && RightOf(Go(f, End)) == After(f);
    KeysConcat(LeftOf(p), Before(f));
    KeysConcat(After(f), RightOf(p));
    AllConcat(Keys(LeftOf(p)), Keys(Before(f)), k);
    AllConcat(Keys(After(f)), Keys(RightOf(p)), k);
    FrameAround(sub, d, k);
  }

  lemma FrameAround(sub: Tree<Node>, d: bool, k: Entry)
    requires sub.Node? && Wf(k) && Wf(sub.val.key)
    requires AllBelow(Keys(Flat(sub.left)), sub.val.key) && AllAbove(Keys(Flat(sub.right)), sub.val.key)
    requires !Equal(k, sub.val.key) && d == Larger(k, sub.val.key)
    ensures var f := Frame(d, sub.val, sub.bal, Child(sub, !d));
            AllBelow(Keys(Before(f)), k) && AllAbove(Keys(After(f)), k)
  {
    EqualIsOverlap(k, sub.val.key);
    if d {
      AllBelowTrans(Keys(Flat(sub.left)), sub.val.key, k);
      KeysConcat(Flat(sub.left), [sub.val]);
      AllConcat(Keys(Flat(sub.left)), Keys([sub.val]), k);
    } else {
      AllAboveTrans(Keys(Flat(sub.right)), sub.val.key, k);
      KeysConcat([sub.val], Flat(sub.right));
      AllConcat(Keys([sub.val]), Keys(Flat(sub.right)), k);
    }
  }

  lemma NoLeaf(l: seq<Node>, r: seq<Node>)
    ensures l + Flat<Node>(Leaf) + r == l + r
  {
  }

  lemma AroundFree(p: Path<Node>, k: Entry)
    requires Around(p, k)
    ensures Free(Keys(Flat(Plug(p, Leaf))), k)
  {
    PlugFlat(p, Leaf);
    NoLeaf(LeftOf(p), RightOf(p));
    KeysConcat(LeftOf(p), RightOf(p));
    FreeConcat(Keys(LeftOf(p)), Keys(RightOf(p)), k);
  }

  lemma FreeConcat(l: seq<Entry>, r: seq<Entry>, k: Entry)
    requires AllBelow(l, k) && AllAbove(r, k)
    ensures Free(l + r, k)
  {
    forall i | 0 <= i < |l + r|
      ensures !Overlaps((l + r)[i], k)
    { assert (l + r)[i] == if i < |l| then l[i] else r[i - |l|]; }
  }

  /** A search for k has come to link l and subtree sub along Cat(a, b), the last unbalanced node hangs at link p. */
  ghost predicate Reached(t: Tree<Node>, a: Path<Node>, b: Path<Node>, sub: Tree<Node>, l: Link, p: Link, k: Entry) {
    && t == Plug(Cat(a, b), sub) && Directed(Cat(a, b), k) && Around(Cat(a, b), k)
    && p == EndLink(Root, a) && l == EndLink(Root, Cat(a, b))
    && (if b.Go? && b.f.bal != 2 then AllBalanced(b.rest) else a.End? && AllBalanced(b))
  }

  lemma ReachedStep(t: Tree<Node>, a: Path<Node>, b: Path<Node>, sub: Tree<Node>, l: Link, p: Link, k: Entry, d: bool)
    returns (a': Path<Node>, b': Path<Node>)
    requires sub.Node? && Reached(t, a, b, sub, l, p, k) && Ordered(Keys(Flat(t))) && Wf(k)
    requires !Equal(k, sub.val.key) && d == Larger(k, sub.val.key)
    ensures Reached(t, a', b', Child(sub, d), Below(sub.val, d), if sub.bal != 2 then l else p, k)
  {
    var q := Cat(a, b);
    var f := Frame(d, sub.val, sub.bal, Child(sub, !d));
    Exposed(q, sub);
    AroundStep(q, sub, d, k);
    PlugSnoc(q, f, End, Child(sub, d));
    CatEnd(Snoc(q, f));
    DirectedSnoc(q, f, k);
    EndLinkCat(Root, q, Go(f, End));
    if sub.bal != 2 {
      a', b' := q, Go(f, End);
    } else {
      CatAssoc(a, b, Go(f, End));
      BalancedSnoc(b, f);
      if b.Go? { BalancedSnoc(b.rest, f); }
      a', b' := a, Snoc(b, f);
    }
  }

  lemma {:induction false} DirectedSnoc(p: Path<Node>, f: Frame<Node>, k: Entry)
    ensures Directed(Snoc(p, f), k) <==> Directed(p, k) && f.dir == Larger(k, f.val.key) && !Equal(k, f.val.key)
  {
    if p.Go? { DirectedSnoc(p.rest, f, k); }
  }

  lemma {:induction false} DirectedCat(p: Path<Node>, q: Path<Node>, k: Entry)
    ensures Directed(Cat(p, q), k) <==> Directed(p, k) && Directed(q, k)
  {
    if p.Go? { DirectedCat(p.rest, q, k); }
  }

  /** A node put where its search ends keeps the order. */
  lemma InsertedBetween(q: Path<Node>, x: Node, t: Tree<Node>)
    requires Ordered(Keys(Flat(Plug(q, Leaf)))) && Around(q, x.key) && Wf(x.key)
    requires Flat(t) == LeftOf(q) + [x] + RightOf(q)
    ensures Keys(Flat(t)) == InsertAt(Keys(Flat(Plug(q, Leaf))), x.key) && Ordered(Keys(Flat(t)))
  {
    PlugFlat(q, Leaf);
    var l, r := LeftOf(q), RightOf(q);
    NoLeaf(l, r);
    KeysConcat(l, r);
    KeysMiddle(l, x, r);
    InsertSplit(Keys(l), Keys(r), x.key);
    InsertOrdered(Keys(l), Keys(r), x.key);
  }

  lemma KeysMiddle(l: seq<Node>, x: Node, r: seq<Node>)
    ensures Keys(l + [x] + r) == Keys(l) + [x.key] + Keys(r)
  {
    KeysConcat(l, [x]);
    KeysConcat(l + [x], r);
    assert Keys([x]) == [x.key];
  }

  lemma InsertedNodes(q: Path<Node>, x: Node, t: Tree<Node>)
    requires Flat(t) == LeftOf(q) + [x] + RightOf(q)
    ensures Nodes(t) == Nodes(Plug(q, Leaf)) + {x}
  {
    PlugFlat(q, Leaf);
    var l, r := LeftOf(q), RightOf(q);
    NoLeaf(l, r);
    NodesFlat(t);
    NodesFlat(Plug(q, Leaf));
    ElemsConcat(l, r);
    ElemsConcat(l, [x]);
    ElemsConcat(l + [x], r);
  }

  lemma InsertOrdered(l: seq<Entry>, r: seq<Entry>, e: Entry)
    requires Ordered(l + r) && AllBelow(l, e) && AllAbove(r, e) && Wf(e)
    ensures Ordered(l + [e] + r)
  {
    var s, t := l + r, l + [e] + r;
    forall i | 0 <= i < |t|
      ensures Wf(t[i])
    { assert t[i] == if i < |l| then s[i] else if i == |l| then e else s[i - 1]; }
    forall i, j | 0 <= i < j < |t|
      ensures Top(t[i]) <= t[j].base
    {
      if i != |l| && j != |l| {
        var i', j' := if i < |l| then i else i - 1, if j < |l| then j else j - 1;
        assert t[i] == s[i'] && t[j] == s[j'] && Top(s[i']) <= s[j'].base;
      } else if i == |l| {
        assert t[j] == r[j - |l| - 1];
      } else {
        assert t[i] == l[i];
      }
    }
  }

  lemma {:induction false} BalancedSnoc(p: Path<Node>, f: Frame<Node>)
    ensures AllBalanced(Snoc(p, f)) <==> AllBalanced(p) && f.bal == 2
    ensures p.Go? ==> Snoc(p, f).Go? && Snoc(p, f).f == p.f && Snoc(p, f).rest == Snoc(p.rest, f)
  {
    if p.Go? { BalancedSnoc(p.rest, f); }
  }

  /** Moving the boundary between a path and the subtree below it. */
  lemma PlugSnoc(p: Path<Node>, f: Frame<Node>, r: Path<Node>, t: Tree<Node>)
    ensures Plug(Cat(Snoc(p, f), r), t) == Plug(p, Fill(f, Plug(r, t)))
    ensures Cat(Snoc(p, f), r) == Cat(p, Go(f, r))
  {
    CatAssoc(p, Go(f, End), r);
    PlugCat(p, Go(f, r), t);
  }

  lemma LinkNode(l: Link, p: Path<Node>)
    requires l == EndLink(Root, p)
    ensures l.Below? ==> l.n in PNodes(p)
  {
    if l.Below? {
      var q, f := LastLink(p, l);
      PNodesCat(q, Go(f, End));
    }
  }

  lemma EqualSelf(e: Entry)
    ensures Equal(e, e)
  {
    Bits.XorZero(e.base, e.base);
  }

  lemma {:induction false} EndLinkBelow(n: Node, d: bool, p: Path<Node>)
    ensures EndLink(Below(n, d), p).Below?
    decreases p
  {
    if p.Go? { EndLinkBelow(p.f.val, p.f.dir, p.rest); }
  }

  lemma EndLinkRoot(p: Path<Node>)
    requires EndLink(Root, p).Root?
    ensures p.End?
  {
    if p.Go? { EndLinkBelow(p.f.val, p.f.dir, p.rest); }
  }

  lemma LastLink(p: Path<Node>, l: Link) returns (q: Path<Node>, f: Frame<Node>)
    requires l.Below? && l == EndLink(Root, p)
    ensures p == Snoc(q, f) && l == Below(f.val, f.dir)
  {
    q, f := LastFrame(p);
    EndLinkCat(Root, q, Go(f, End));
  }
}
