/** Avl::remove (src/avl.cpp:99-163): how a removal's path, its `item` link and its final splice fit together. */
module AvlRemoval {
  import opened AvlShape
  import opened Ranges
  import opened Avl

  ghost predicate AllRight(p: Path<Node>) { p.Go? ==> p.f.dir && AllRight(p.rest) }

  ghost predicate Occurs(p: Path<Node>, x: Node) { p.Go? && (p.f.val == x || Occurs(p.rest, x)) }

  /** Having passed x the path turned left once and then right: it heads for the predecessor of x. */
  ghost predicate Tracks(p: Path<Node>, x: Node) {
    p.Go? ==> if p.f.val == x then !p.f.dir && AllRight(p.rest) else Tracks(p.rest, x)
  }

  /** The link that holds x on a path starting at link l; its end if x does not occur on it. */
  ghost function ItemLink(l: Link, p: Path<Node>, x: Node): Link
    decreases p
  {
    if p.End? || p.f.val == x then l else ItemLink(Below(p.f.val, p.f.dir), p.rest, x)
  }

  lemma {:induction false} OccursCat(p: Path<Node>, q: Path<Node>, x: Node)
    ensures Occurs(Cat(p, q), x) <==> Occurs(p, x) || Occurs(q, x)
  {
    if p.Go? { OccursCat(p.rest, q, x); }
  }

  lemma {:induction false} AllRightCat(p: Path<Node>, q: Path<Node>)
    ensures AllRight(Cat(p, q)) <==> AllRight(p) && AllRight(q)
  {
    if p.Go? { AllRightCat(p.rest, q); }
  }

  lemma {:induction false} TracksCat(p: Path<Node>, q: Path<Node>, x: Node)
    ensures Tracks(Cat(p, q), x) <==> Tracks(p, x) && (if Occurs(p, x) then AllRight(q) else Tracks(q, x))
  {
    if p.Go? {
      TracksCat(p.rest, q, x);
      AllRightCat(p.rest, q);
    }
  }

  lemma {:induction false} ItemCat(l: Link, p: Path<Node>, q: Path<Node>, x: Node)
    ensures ItemLink(l, Cat(p, q), x) == if Occurs(p, x) then ItemLink(l, p, x) else ItemLink(EndLink(l, p), q, x)
    decreases p
  {
    if p.Go? && p.f.val != x { ItemCat(Below(p.f.val, p.f.dir), p.rest, q, x); }
  }

  /** One more frame at the end of a path: whether x occurs and the link that holds it. */
  lemma ItemStep(q: Path<Node>, f: Frame<Node>, x: Node)
    ensures !Occurs(q, x) ==> ItemLink(Root, q, x) == EndLink(Root, q)
    ensures Occurs(Snoc(q, f), x) <==> Occurs(q, x) || f.val == x
    ensures Occurs(Snoc(q, f), x) ==> ItemLink(Root, Snoc(q, f), x) == ItemLink(Root, q, x)
  {
    ItemCat(Root, q, End, x);
    CatEnd(q);
    ItemCat(Root, q, Go(f, End), x);
    OccursCat(q, Go(f, End), x);
  }

  /** The two halves of a path around x. */
  lemma {:induction false} SplitAt(l: Link, p: Path<Node>, x: Node)
    returns (u: Path<Node>, f: Frame<Node>, w: Path<Node>)
    requires Occurs(p, x) && Tracks(p, x)
    ensures p == Cat(u, Go(f, w)) && f.val == x && !f.dir && AllRight(w)
    ensures ItemLink(l, p, x) == EndLink(l, u)
    decreases p
  {
    if p.f.val == x {
      u, f, w := End, p.f, p.rest;
    } else {
      u, f, w := SplitAt(Below(p.f.val, p.f.dir), p.rest, x);
      u := Go(p.f, u);
    }
  }

  lemma {:induction false} AllRightSides(p: Path<Node>)
    requires AllRight(p)
    ensures RightOf(p) == []
  {
    if p.Go? { AllRightSides(p.rest); }
  }

  // ----- the repairs keep track of x

  /** One repaired frame: the same link at its end, the same turns, and x where `rotate` has put it. */
  lemma FixFrameTracks(f: Frame<Node>, x: Node, l: Link)
    requires Repairable(f) && x !in Nodes(f.other)
    ensures var r := FixFrame(f, End);
            && EndLink(l, r) == Below(f.val, f.dir)
            && (Occurs(r, x) <==> f.val == x) && (AllRight(r) <==> f.dir) && (Tracks(r, x) <==> Tracks(Go(f, End), x))
            && (r.rest.End? ==> r.f.val == f.val && ItemLink(l, r, x) == ItemLink(l, Go(f, End), x))
            && (r.rest.Go? ==> r.f.val != x && r.f.dir == f.dir)
            && (r.rest.Go? && f.val == x ==> ItemLink(l, r, x) == Below(r.f.val, f.dir))
  {
    var r := FixFrame(f, End);
    if r.rest.Go? {
      assert r.f.val in Nodes(f.other);
      assert r.rest.rest.End? && r.rest.f.val == f.val && r.rest.f.dir == f.dir && r.f.dir == f.dir;
      assert EndLink(l, r) == EndLink(Below(r.f.val, r.f.dir), r.rest) == EndLink(Below(f.val, f.dir), End);
      assert Occurs(r.rest, x) <==> f.val == x;
      assert AllRight(r.rest) <==> f.dir;
      assert Tracks(r.rest, x) <==> Tracks(Go(f, End), x);
      assert ItemLink(l, r, x) == ItemLink(Below(r.f.val, r.f.dir), r.rest, x);
    }
  }

  lemma FixFrameCat(f: Frame<Node>, r: Path<Node>)
    requires Repairable(f)
    ensures Cat(FixFrame(f, End), r) == FixFrame(f, r)
  {
    var c := FixFrame(f, End);
    if c.rest.Go? { assert Cat(c.rest, r) == Go(c.rest.f, Cat(c.rest.rest, r)); }
  }

  /** State of the first loop: the search has come to link l and subtree sub; `item` is set once x was met. */
  ghost predicate Hunt(t: Tree<Node>, a: Path<Node>, b: Path<Node>, sub: Tree<Node>, l: Link, p: Link, x: Node) {
    var q := Cat(a, b);
    && t == Plug(q, sub) && Turned(q, x.key) && Tracks(q, x)
    && p == EndLink(Root, a) && l == EndLink(Root, q)
    && ((b.Go? && Absorbs(b.f) && NoneAbsorbs(b.rest)) || (a.End? && NoneAbsorbs(b)))
    && (if Occurs(q, x) then AllBelow(Keys(Flat(sub)), x.key) else Around(q, x.key))
  }

  /** Every turn is the one a search for k takes. */
  ghost predicate Turned(p: Path<Node>, k: Entry) { p.Go? ==> p.f.dir == Larger(k, p.f.val.key) && Turned(p.rest, k) }

  lemma {:induction false} TurnedCat(p: Path<Node>, q: Path<Node>, k: Entry)
    ensures Turned(Cat(p, q), k) <==> Turned(p, k) && Turned(q, k)
  {
    if p.Go? { TurnedCat(p.rest, q, k); }
  }

  lemma {:induction false} NoneAbsorbsCat(p: Path<Node>, q: Path<Node>)
    ensures NoneAbsorbs(Cat(p, q)) <==> NoneAbsorbs(p) && NoneAbsorbs(q)
  {
    if p.Go? { NoneAbsorbsCat(p.rest, q); }
  }

  /** In an ordered tree only x itself overlaps x, and x is met before the search ends. */
  lemma OnlyItself(q: Path<Node>, sub: Tree<Node>, x: Node)
    requires sub.Node? && Ordered(Keys(Flat(Plug(q, sub)))) && Wf(x.key)
    requires x in Nodes(Plug(q, sub)) || Free(Keys(Flat(Plug(q, sub))), x.key)
    ensures Equal(x.key, sub.val.key) <==> sub.val == x
  {
    Exposed(q, sub);
    EqualIsOverlap(x.key, sub.val.key);
    NodesPlug(q, sub);
    NodesFlat(Plug(q, sub));
    if sub.val == x {
      EqualSelf(x.key);
    } else {
      var s := Flat(Plug(q, sub));
      assert sub.val in Nodes(Plug(q, sub));
      var i :| 0 <= i < |s| && s[i] == sub.val;
      assert Keys(s)[i] == sub.val.key;
      if x in Nodes(Plug(q, sub)) {
        var j :| 0 <= j < |s| && s[j] == x;
        KeysApart(s, i, j);
      } else {
        assert !Overlaps(Keys(s)[i], x.key);
      }
    }
  }

  lemma KeysApart(s: seq<Node>, i: nat, j: nat)
    requires Ordered(Keys(s)) && i < |s| && j < |s| && i != j
    ensures !Overlaps(s[j].key, s[i].key)
  {
    assert Keys(s)[i] == s[i].key && Keys(s)[j] == s[j].key;
    if i < j { assert Top(Keys(s)[i]) <= Keys(s)[j].base; } else { assert Top(Keys(s)[j]) <= Keys(s)[i].base; }
  }

  /** One turn of the first loop. */
  lemma HuntStep(t: Tree<Node>, a: Path<Node>, b: Path<Node>, sub: Tree<Node>, l: Link, p: Link, x: Node, d: bool)
    returns (a': Path<Node>, b': Path<Node>)
    requires sub.Node? && Hunt(t, a, b, sub, l, p, x) && Ordered(Keys(Flat(t))) && Wf(x.key)
    requires x in Nodes(t) || Free(Keys(Flat(t)), x.key)
    requires d == Larger(x.key, sub.val.key)
    ensures var f := Frame(d, sub.val, sub.bal, Child(sub, !d));
            Hunt(t, a', b', Child(sub, d), Below(sub.val, d), if Absorbs(f) then l else p, x)
    ensures Cat(a', b') == Snoc(Cat(a, b), Frame(d, sub.val, sub.bal, Child(sub, !d)))
  {
    var q := Cat(a, b);
    var f := Frame(d, sub.val, sub.bal, Child(sub, !d));
    PlugSnoc(q, f, End, Child(sub, d));
    CatEnd(Snoc(q, f));
    EndLinkCat(Root, q, Go(f, End));
    TurnedCat(q, Go(f, End), x.key);
    HuntOrder(t, q, sub, x, d);
    if Absorbs(f) {
      a', b' := q, Go(f, End);
    } else {
      CatAssoc(a, b, Go(f, End));
      NoneAbsorbsCat(b, Go(f, End));
      if b.Go? { NoneAbsorbsCat(b.rest, Go(f, End)); }
      a', b' := a, Snoc(b, f);
    }
  }

  lemma HuntOrder(t: Tree<Node>, q: Path<Node>, sub: Tree<Node>, x: Node, d: bool)
    requires sub.Node? && t == Plug(q, sub) && Ordered(Keys(Flat(t))) && Wf(x.key) && Tracks(q, x)
    requires if Occurs(q, x) then AllBelow(Keys(Flat(sub)), x.key) else Around(q, x.key)
    requires x in Nodes(t) || Free(Keys(Flat(t)), x.key)
    requires d == Larger(x.key, sub.val.key)
    ensures var q' := Snoc(q, Frame(d, sub.val, sub.bal, Child(sub, !d)));
            && Tracks(q', x)
            && (if Occurs(q', x) then AllBelow(Keys(Flat(Child(sub, d))), x.key) else Around(q', x.key))
  {
    var f := Frame(d, sub.val, sub.bal, Child(sub, !d));
    Exposed(q, sub);
    OnlyItself(q, sub, x);
    OccursCat(q, Go(f, End), x);
    TracksCat(q, Go(f, End), x);
    KeysConcat(Flat(sub.left), [sub.val]);
    KeysConcat(Flat(sub.left) + [sub.val], Flat(sub.right));
    AllConcat(Keys(Flat(sub.left)), Keys([sub.val]), x.key);
    AllConcat(Keys(Flat(sub.left) + [sub.val]), Keys(Flat(sub.right)), x.key);
    if Occurs(q, x) {
      assert Keys([sub.val])[0] == sub.val.key;
      assert d;
    } else if sub.val != x {
      AroundStep(q, sub, d, x.key);
    }
  }

  lemma {:induction false} OccursNodes(p: Path<Node>, x: Node)
    requires Occurs(p, x)
    ensures x in PNodes(p)
  {
    if p.f.val != x { OccursNodes(p.rest, x); }
  }

  /** x is met at most once. */
  lemma NotTwice(sub: Tree<Node>, x: Node)
    requires sub.Node? && AllBelow(Keys(Flat(sub)), x.key)
    ensures sub.val != x
  {
    assert Flat(sub)[|Flat(sub.left)|] == sub.val;
    assert Top(Keys(Flat(sub))[|Flat(sub.left)|]) <= x.key.base;
  }

  /** A search that ends without having met x proves that x is not in the tree. */
  lemma FoundIff(t: Tree<Node>, q: Path<Node>, sub: Tree<Node>, x: Node, d: bool)
    requires sub.Node? && t == Plug(q, sub) && Ordered(Keys(Flat(t))) && Wf(x.key) && Tracks(q, x)
    requires if Occurs(q, x) then AllBelow(Keys(Flat(sub)), x.key) else Around(q, x.key)
    requires x in Nodes(t) || Free(Keys(Flat(t)), x.key)
    requires d == Larger(x.key, sub.val.key) && Child(sub, d).Leaf?
    ensures x in Nodes(t) <==> Occurs(q, x) || sub.val == x
  {
    NodesPlug(q, sub);
    if Occurs(q, x) {
      OccursNodes(q, x);
    } else if sub.val != x {
      HuntOrder(t, q, sub, x, d);
      var f := Frame(d, sub.val, sub.bal, Child(sub, !d));
      OccursCat(q, Go(f, End), x);
      PlugSnoc(q, f, End, Leaf);
      CatEnd(Snoc(q, f));
      AroundFree(Snoc(q, f), x.key);
      NodesFlat(t);
      EqualSelf(x.key);
      EqualIsOverlap(x.key, x.key);
      forall j | 0 <= j < |Flat(t)|
        ensures Flat(t)[j] != x
      { assert !Overlaps(Keys(Flat(t))[j], x.key); }
    }
  }

  /** The child on the heavier side exists. */
  lemma HeavySide(n: Node, sub: Tree<Node>, d: bool)
    requires sub.Node? && Rep(n, sub) && AvlShape.Avl(sub) && n.bal == Side(d)
    ensures n.Lnk(d) != null
  {
  }

  /** The first loop: the last node on the way to x and its predecessor, the last link at which a height loss
      is absorbed, and the link that holds x. */
  method FindLast(tr: AvlTree, x: Node)
    returns (found: bool, l: Link, p: Link, item: Link, d: bool, ghost a: Path<Node>, ghost b: Path<Node>,
             ghost sub: Tree<Node>)
    requires tr.Valid() && Wf(x.key)
    requires x in tr.repr || Free(tr.Contents(), x.key)
    ensures found <==> x in tr.repr
    ensures found ==>
      sub.Node? && Hunt(tr.tree, a, b, sub, l, p, x) && Child(sub, d).Leaf? && d == Larger(x.key, sub.val.key)
    ensures found ==> (Occurs(Cat(a, b), x) || sub.val == x) && item == ItemLink(Root, Cat(a, b), x)
  {
    l, p, item, d := Root, Root, Root, false;
    a, b, sub := End, End, tr.tree;
    found := false;
    var n := tr.root;
    while n != null
      invariant Hunt(tr.tree, a, b, sub, l, p, x) && Rep(n, sub)
      invariant found <==> Occurs(Cat(a, b), x)
      invariant n == null ==> a.End? && b.End?
      invariant found ==> item == ItemLink(Root, Cat(a, b), x)
      decreases sub
    {
      OnlyItself(Cat(a, b), sub, x);
      if found { NotTwice(sub, x); }
      if Equal(x.key, n.key) {
        item := l;
        found := true;
      }
      d := Larger(x.key, n.key);
      ItemStep(Cat(a, b), Frame(d, n, n.bal, Child(sub, !d)), x);
      if n.Lnk(d) == null {
        FoundIff(tr.tree, Cat(a, b), sub, x, d);
        break;
      }
      PlugAvl(Cat(a, b), sub);
      if n.bal == Side(!d) { HeavySide(n, sub, !d); }
      a, b := HuntStep(tr.tree, a, b, sub, l, p, x, d);
      if n.bal == 2 || (n.bal == Side(!d) && n.Lnk(!d).bal == 2) { p := l; }
      l := Below(n, d);
      sub := Child(sub, d);
      n := n.Lnk(d);
    }
  }

  /** The nodes of a repaired frame are those of the frame. */
  lemma FixFrameSep(p: Path<Node>, f: Frame<Node>, t: Tree<Node>)
    requires Repairable(f) && Sep(Plug(p, Fill(f, t)))
    ensures Sep(Plug(p, Plug(FixFrame(f, End), t)))
    ensures Nodes(Plug(p, Plug(FixFrame(f, End), t))) == Nodes(Plug(p, Fill(f, t)))
  {
    SepPlug(p, Fill(f, t));
    NodesPlug(p, Fill(f, t));
    FixFrameSepHere(f, t);
    SepPlug(p, Plug(FixFrame(f, End), t));
    NodesPlug(p, Plug(FixFrame(f, End), t));
  }

  lemma FixFrameSepHere(f: Frame<Node>, t: Tree<Node>)
    requires Repairable(f) && Sep(Fill(f, t))
    ensures Sep(Plug(FixFrame(f, End), t)) && Nodes(Plug(FixFrame(f, End), t)) == Nodes(Fill(f, t))
  {
    var c, s, d := FixFrame(f, End), f.other, f.dir;
    if f.bal == 2 || f.bal == Side(d) {
      assert Plug(c, t) == Fill(c.f, t);
    } else {
      RotatedFrame(f, t);
      RotateSepHere(Fill(f, t), !d, if s.bal == Side(d) then Child(s, d).bal else 2);
      if s.bal != Side(d) { TwoBalances(c.f, c.rest.f, t); }
    }
  }

  /** Sep and Nodes do not depend on stored balances. */
  lemma TwoBalances(f: Frame<Node>, g: Frame<Node>, t: Tree<Node>)
    requires Sep(Fill(f.(bal := 2), Fill(g.(bal := 2), t)))
    ensures Sep(Fill(f, Fill(g, t)))
    ensures Nodes(Fill(f, Fill(g, t))) == Nodes(Fill(f.(bal := 2), Fill(g.(bal := 2), t)))
  {
    var u := Fill(g.(bal := 2), t);
    assert Sep(u) && Sep(Fill(g, t)) && Nodes(Fill(g, t)) == Nodes(u);
  }

  /** The rotations of the tree are the repairs of the frame. */
  lemma RotatedFrame(f: Frame<Node>, t: Tree<Node>)
    requires Repairable(f) && f.bal == Side(!f.dir)
    ensures var d, s, c := f.dir, f.other, FixFrame(f, End);
            && c.rest.Go? && c.rest.rest.End? && Plug(c, t) == Fill(c.f, Fill(c.rest.f, t))
            && (s.bal == Side(d) ==> Rotate2(Fill(f, t), !d, Child(s, d).bal) == Plug(c, t))
            && (s.bal != Side(d) ==>
                  Rotate1(Fill(f, t), !d) == Fill(c.f.(bal := 2), Fill(c.rest.f.(bal := 2), t)))
  {
    var c := FixFrame(f, End);
    assert Plug(c, t) == Fill(c.f, Plug(c.rest, t)) && Plug(c.rest, t) == Fill(c.rest.f, Plug(c.rest.rest, t));
  }

  lemma OneFrame(f: Frame<Node>, t: Tree<Node>)
    ensures Plug(Go(f, End), t) == Fill(f, t)
  {
  }

  /** The second loop's step: the repair of one ancestor n = f.val hanging at link p. */
  method FixOne(tr: AvlTree, p: Link, n: Node, d: bool, ghost above: Path<Node>, ghost f: Frame<Node>,
                ghost t: Tree<Node>)
    returns (rotated: bool)
    requires n == f.val && d == f.dir && Repairable(f) && AvlShape.Avl(f.other) && p == EndLink(Root, above)
    requires Rep(tr.root, Plug(above, Fill(f, t))) && Sep(Plug(above, Fill(f, t)))
    requires Nodes(Plug(above, Fill(f, t))) <= tr.repr
    modifies tr`root, tr.repr
    ensures Rep(tr.root, Plug(above, Plug(FixFrame(f, End), t)))
    ensures rotated <==> FixFrame(f, End).rest.Go?
  {
    RepPlug(tr.root, above, Fill(f, t));
    tr.LoadEnd(p, above, Fill(f, t));
    NodesPlug(above, Fill(f, t));
    rotated := false;
    OneFrame(f.(bal := Side(!d)), t);
    OneFrame(f.(bal := 2), t);
    if n.bal == 2 {
      tr.SetBal(n, Side(!d), above, f, t);
    } else if n.bal == Side(d) {
      tr.SetBal(n, 2, above, f, t);
    } else {
      rotated := true;
      RotatedFrame(f, t);
      assert Rep(n.Lnk(!d), f.other);
      var s := n.Lnk(!d);
      var b := s.bal;
      if b == Side(d) {
        assert Rep(s.Lnk(d), Child(f.other, d)) && AvlShape.Avl(Child(f.other, d));
        var m := tr.RotateDouble(p, !d, s.Lnk(d).bal, above, Fill(f, t));
      } else {
        var m := tr.RotateSingle(p, !d, above, Fill(f, t));
        RotateSep(above, Fill(f, t), !d, 2);
        if b == 2 {
          ghost var c := FixFrame(f, End);
          TiltBoth(tr, n, s, Side(!d), Side(d), above, c.f.(bal := 2), c.rest.f.(bal := 2), t);
        }
      }
    }
  }

  /** Setting the balances of a node and of the node above it. */
  method TiltBoth(tr: AvlTree, n: Node, top: Node, b: nat, bt: nat,
                  ghost above: Path<Node>, ghost f: Frame<Node>, ghost g: Frame<Node>, ghost t: Tree<Node>)
    requires top == f.val && n == g.val
    requires Rep(tr.root, Plug(above, Fill(f, Fill(g, t)))) && Sep(Plug(above, Fill(f, Fill(g, t))))
    requires Nodes(Plug(above, Fill(f, Fill(g, t)))) <= tr.repr
    modifies tr.repr
    ensures Rep(tr.root, Plug(above, Fill(f.(bal := bt), Fill(g.(bal := b), t))))
  {
    NodesPlug(above, Fill(f, Fill(g, t)));
    PlugSnoc(above, f, End, Fill(g, t));
    PlugSnoc(above, f, End, Fill(g.(bal := b), t));
    CatEnd(Snoc(above, f));
    tr.SetBal(n, b, Snoc(above, f), g, t);
    tr.SetBal(top, bt, above, f, Fill(g.(bal := b), t));
  }

  /** State of the second loop: the ancestors on `above` are repaired, those on `rest` are not. */
  ghost predicate Repairing(above: Path<Node>, rest: Path<Node>, sub: Tree<Node>, x: Node, p: Link, item: Link,
                            s: set<Node>) {
    var q := Cat(above, rest);
    && AllRepairable(rest) && AllAvl(rest) && Turned(rest, x.key) && sub.Node?
    && p == EndLink(Root, above) && item == ItemLink(Root, q, x)
    && Sep(Plug(q, sub)) && Nodes(Plug(q, sub)) == s
    && Tracks(q, x) && (Occurs(q, x) || sub.val == x)
  }

  lemma RepairingStep(above: Path<Node>, rest: Path<Node>, sub: Tree<Node>, x: Node, p: Link, item: Link, s: set<Node>)
    requires rest.Go? && Repairing(above, rest, sub, x, p, item, s)
    ensures var f, c := rest.f, FixFrame(rest.f, End);
            && Repairing(Cat(above, c), rest.rest, sub, x, Below(f.val, f.dir),
                         if c.rest.Go? && f.val == x then Below(c.f.val, f.dir) else item, s)
            && Plug(Cat(above, rest), sub) == Plug(above, Fill(f, Plug(rest.rest, sub)))
            && Plug(Cat(Cat(above, c), rest.rest), sub) == Plug(above, Plug(c, Plug(rest.rest, sub)))
            && Plug(Cat(above, c), Plug(rest.rest, sub)) == Plug(above, Plug(c, Plug(rest.rest, sub)))
            && Cat(Cat(above, c), FixPath(rest.rest)) == Cat(above, FixPath(rest))
            && EndLink(Root, Cat(Cat(above, c), rest.rest)) == EndLink(Root, Cat(above, rest))
            && (Occurs(Cat(Cat(above, c), rest.rest), x) <==> Occurs(Cat(above, rest), x))
  {
    var f, c, t := rest.f, FixFrame(rest.f, End), Plug(rest.rest, sub);
    PlugCat(above, rest, sub);
    SeparateX(above, rest, sub, x);
    FixTracks(above, f, rest.rest, x);
    FixFrameSep(above, f, t);
    PlugCat(above, c, t);
    PlugCat(Cat(above, c), rest.rest, sub);
    FixFrameCat(f, FixPath(rest.rest));
    CatAssoc(above, c, FixPath(rest.rest));
  }

  /** One turn of the second loop. */
  method RepairOne(tr: AvlTree, x: Node, p: Link, item: Link, n: Node,
                   ghost above: Path<Node>, ghost rest: Path<Node>, ghost sub: Tree<Node>)
    returns (p': Link, item': Link, n': Node)
    requires rest.Go? && Repairing(above, rest, sub, x, p, item, tr.repr)
    requires Rep(tr.root, Plug(Cat(above, rest), sub)) && Rep(n, Plug(rest, sub))
    modifies tr`root, tr.repr
    ensures var f, c := rest.f, FixFrame(rest.f, End);
            && Rep(tr.root, Plug(Cat(Cat(above, c), rest.rest), sub)) && Rep(n', Plug(rest.rest, sub))
            && p' == Below(f.val, f.dir)
            && item' == if c.rest.Go? && f.val == x then Below(c.f.val, f.dir) else item
  {
    var d := Larger(x.key, n.key);
    ghost var f, c, t := rest.f, FixFrame(rest.f, End), Plug(rest.rest, sub);
    RepairingStep(above, rest, sub, x, p, item, tr.repr);
    var rotated := FixOne(tr, p, n, d, above, f, t);
    item' := item;
    if rotated && n == x {
      tr.LoadEnd(p, above, Plug(c, t));
      item' := Below(tr.Load(p), d);
    }
    p' := Below(n, d);
    tr.LoadEnd(p', Cat(above, c), t);
    PlugIsNode(rest.rest, sub);
    n' := n.Lnk(d);
  }

  /** The second loop: every ancestor from link p0 down to the last node is repaired. */
  method RepairDown(tr: AvlTree, x: Node, p0: Link, item0: Link, ghost a: Path<Node>, ghost b: Path<Node>,
                    ghost sub: Tree<Node>)
    returns (item: Link)
    requires Repairing(a, b, sub, x, p0, item0, tr.repr) && Child(sub, Larger(x.key, sub.val.key)).Leaf?
    requires Rep(tr.root, Plug(Cat(a, b), sub))
    modifies tr`root, tr.repr
    ensures var c := Cat(a, FixPath(b));
            && Rep(tr.root, Plug(c, sub)) && Sep(Plug(c, sub)) && Nodes(Plug(c, sub)) == tr.repr
            && Tracks(c, x) && (Occurs(c, x) <==> Occurs(Cat(a, b), x))
            && item == ItemLink(Root, c, x) && EndLink(Root, c) == EndLink(Root, Cat(a, b))
  {
    item := item0;
    var p := p0;
    ghost var above, rest := a, b;
    PlugCat(a, b, sub);
    tr.LoadEnd(p, a, Plug(b, sub));
    var n := tr.Load(p);
    if b.Go? { LeadsOn(n, b, sub, x.key); }
    while n.Lnk(Larger(x.key, n.key)) != null
      invariant Repairing(above, rest, sub, x, p, item, tr.repr)
      invariant Rep(tr.root, Plug(Cat(above, rest), sub)) && Rep(n, Plug(rest, sub))
      invariant Cat(above, FixPath(rest)) == Cat(a, FixPath(b))
      invariant EndLink(Root, Cat(above, rest)) == EndLink(Root, Cat(a, b))
      invariant Occurs(Cat(above, rest), x) <==> Occurs(Cat(a, b), x)
      invariant rest.Go? ==> n.Lnk(Larger(x.key, n.key)) != null
      decreases rest
    {
      ghost var c := FixFrame(rest.f, End);
      RepairingStep(above, rest, sub, x, p, item, tr.repr);
      p, item, n := RepairOne(tr, x, p, item, n, above, rest, sub);
      above, rest := Cat(above, c), rest.rest;
      if rest.Go? { LeadsOn(n, rest, sub, x.key); }
    }
    CatEnd(above);
  }

  /** The path leads on as long as it has frames. */
  lemma LeadsOn(n: Node, p: Path<Node>, sub: Tree<Node>, k: Entry)
    requires p.Go? && sub.Node? && Turned(p, k) && Rep(n, Plug(p, sub))
    ensures n.Lnk(Larger(k, n.key)) != null
  {
    PlugIsNode(p.rest, sub);
    assert Rep(n.Lnk(p.f.dir), Plug(p.rest, sub));
  }

  lemma {:induction false} PlugIsNode(p: Path<Node>, t: Tree<Node>)
    requires t.Node?
    ensures Plug(p, t).Node?
  {
    if p.Go? { PlugIsNode(p.rest, t); }
  }

  /** In a tree without repetitions x is in one place only. */
  lemma SeparateX(above: Path<Node>, rest: Path<Node>, sub: Tree<Node>, x: Node)
    requires rest.Go? && sub.Node? && Sep(Plug(Cat(above, rest), sub))
    requires Occurs(Cat(above, rest), x) || sub.val == x
    ensures x !in Nodes(rest.f.other) && (rest.f.val == x ==> !Occurs(above, x))
  {
    SepPlug(Cat(above, rest), sub);
    PSepCat(above, rest);
    OccursCat(above, rest, x);
    PNodesCat(above, rest);
    if Occurs(above, x) { OccursNodes(above, x); }
    if Occurs(rest.rest, x) { OccursNodes(rest.rest, x); }
  }

  /** One repaired frame in the middle of a path. */
  lemma FixTracks(above: Path<Node>, f: Frame<Node>, r: Path<Node>, x: Node)
    requires Repairable(f) && x !in Nodes(f.other) && (f.val == x ==> !Occurs(above, x))
    requires Tracks(Cat(above, Go(f, r)), x)
    ensures var c := FixFrame(f, End);
            var q, q' := Cat(above, Go(f, r)), Cat(Cat(above, c), r);
            && Tracks(q', x) && (Occurs(q', x) <==> Occurs(q, x))
            && EndLink(Root, Cat(above, c)) == Below(f.val, f.dir) && EndLink(Root, q') == EndLink(Root, q)
            && ItemLink(Root, q', x)
               == if c.rest.Go? && f.val == x then Below(c.f.val, f.dir) else ItemLink(Root, q, x)
  {
    var c, l := FixFrame(f, End), EndLink(Root, above);
    FixFrameTracks(f, x, l);
    CatAssoc(above, c, r);
    assert Cat(Go(f, End), r) == Go(f, r);
    TracksCat(above, Cat(c, r), x);
    TracksCat(above, Go(f, r), x);
    TracksCat(c, r, x);
    TracksCat(Go(f, End), r, x);
    AllRightCat(c, r);
    AllRightCat(Go(f, End), r);
    OccursCat(above, Cat(c, r), x);
    OccursCat(above, Go(f, r), x);
    OccursCat(c, r, x);
    FixTracksLinks(above, f, r, x);
  }

  lemma FixTracksLinks(above: Path<Node>, f: Frame<Node>, r: Path<Node>, x: Node)
    requires Repairable(f) && x !in Nodes(f.other) && (f.val == x ==> !Occurs(above, x))
    ensures var c := FixFrame(f, End);
            var q, q' := Cat(above, Go(f, r)), Cat(above, Cat(c, r));
            && EndLink(Root, Cat(above, c)) == Below(f.val, f.dir) && EndLink(Root, q') == EndLink(Root, q)
            && ItemLink(Root, q', x)
               == if c.rest.Go? && f.val == x then Below(c.f.val, f.dir) else ItemLink(Root, q, x)
  {
    var c, l := FixFrame(f, End), EndLink(Root, above);
    FixFrameTracks(f, x, l);
    EndLinkCat(Root, above, c);
    EndLinkCat(Root, above, Cat(c, r));
    EndLinkCat(Root, above, Go(f, r));
    EndLinkCat(l, c, r);
    ItemCat(Root, above, Cat(c, r), x);
    ItemCat(Root, above, Go(f, r), x);
    ItemCat(l, c, r, x);
  }

  ghost predicate AllAvl(p: Path<Node>) { p.Go? ==> AvlShape.Avl(p.f.other) && AllAvl(p.rest) }

  /** The final splice when the last node is not x itself: `last` takes the place of x, and its only subtree
      takes the place of `last`. */
  method Splice(tr: AvlTree, x: Node, last: Node, l: Link, item: Link, ghost u: Path<Node>, ghost f: Frame<Node>,
                ghost w: Path<Node>, ghost sub: Tree<Node>)
    requires sub.Node? && sub.val == last && sub.right.Leaf? && f.val == x && !f.dir
    requires item == EndLink(Root, u) && l == EndLink(Root, Cat(u, Go(f, w)))
    requires Rep(tr.root, Plug(Cat(u, Go(f, w)), sub)) && Sep(Plug(Cat(u, Go(f, w)), sub))
    requires Nodes(Plug(Cat(u, Go(f, w)), sub)) <= tr.repr
    modifies tr`root, tr.repr
    ensures Rep(tr.root, Plug(Cat(u, Go(f.(val := last), w)), sub.left))
  {
    ghost var low := Plug(w, sub);
    ghost var g, s := f.(val := last), Nodes(Fill(f, low));
    PlugCat(u, Go(f, w), sub);
    SepPlug(u, Fill(f, low));
    NodesPlug(u, Fill(f, low));
    tr.LoadEnd(item, u, Fill(f, low));
    LinkNode(item, u);
    EndLinkCat(Root, u, Go(f, w));
    assert s <= tr.repr;
    tr.Store(item, last, u);
    SpliceLow(x, last, l, f, w, sub, s);
    SegTail(tr.root, u, last);
    RepPlug(tr.root, u, Fill(g, Plug(w, sub.left)));
    PlugCat(u, Go(g, w), sub.left);
  }

  /** The part of the splice below the link that held x. */
  method SpliceLow(x: Node, last: Node, l: Link, ghost f: Frame<Node>, ghost w: Path<Node>, ghost sub: Tree<Node>,
                   ghost s: set<Node>)
    requires sub.Node? && sub.val == last && sub.right.Leaf? && f.val == x && !f.dir
    requires l == EndLink(Below(x, false), w) && s == Nodes(Fill(f, Plug(w, sub)))
    requires Rep(x, Fill(f, Plug(w, sub))) && Sep(Fill(f, Plug(w, sub)))
    modifies s
    ensures Rep(last, Fill(f.(val := last), Plug(w, sub.left)))
  {
    SepPlug(w, sub);
    NodesPlug(w, sub);
    RepPlug(x.lnk0, w, sub);
    BelowNode(x, w);
    var v := last.lnk0;
    RedirectBelow(x, v, l, w, last, s);
    TakeFields(last, x);
    assert Seg(last.lnk0, w, v) && Rep(v, sub.left) && Rep(last.lnk1, f.other);
    SegTail(last.lnk0, w, v);
    RepPlug(last.lnk0, w, sub.left);
  }

  method TakeFields(last: Node, x: Node)
    modifies last
    ensures last.lnk0 == old(x.lnk0) && last.lnk1 == old(x.lnk1) && last.bal == old(x.bal)
  {
    last.lnk0, last.lnk1, last.bal := x.lnk0, x.lnk1, x.bal;
  }

  lemma BelowNode(x: Node, w: Path<Node>)
    ensures var l := EndLink(Below(x, false), w); l.Below? && (l.n == x || l.n in PNodes(w))
  {
    EndLinkBelow(x, false, w);
    if w.Go? {
      var q, f := LastFrame(w);
      EndLinkCat(Below(x, false), q, Go(f, End));
      PNodesCat(q, Go(f, End));
    }
  }

  /** Redirecting the end of a path that starts at the left link of x. */
  method RedirectBelow(x: Node, v: Node?, l: Link, ghost w: Path<Node>, ghost m: Node?, ghost s: set<Node>)
    requires l == EndLink(Below(x, false), w) && PSep(w) && x !in PNodes(w) && PNodes(w) <= s
    requires Seg(x.lnk0, w, m)
    modifies if l.Below? then {l.n} else {}
    ensures Seg(x.lnk0, w, v) && x.lnk1 == old(x.lnk1) && x.bal == old(x.bal)
    ensures l.Below? && (l.n == x || l.n in PNodes(w))
  {
    BelowNode(x, w);
    ghost var q, f := End, Frame(false, x, 0, Leaf);
    if w.Go? {
      q, f := LastFrame(w);
      EndLinkCat(Below(x, false), q, Go(f, End));
      PNodesCat(q, Go(f, End));
      PSepCat(q, Go(f, End));
      SegSnoc(x.lnk0, q, f, m);
    }
    l.n.SetLnk(l.d, v);
    if w.Go? { SegSnoc(x.lnk0, q, f, v); }
  }

  /** Avl::remove */
  method Remove(tr: AvlTree, x: Node) returns (ok: bool)
    requires tr.Valid() && Wf(x.key)
    requires x in tr.repr || Free(tr.Contents(), x.key)
    modifies tr, tr.repr
    ensures tr.Valid()
    ensures ok <==> x in old(tr.repr)
    ensures ok ==> tr.Contents() == RemoveFrom(old(tr.Contents()), x.key) && tr.repr == old(tr.repr) - {x}
    ensures !ok ==> tr.tree == old(tr.tree) && tr.repr == old(tr.repr) && unchanged(old(tr.repr))
  {
    var l, p, item, d;
    ghost var a, b, sub;
    ok, l, p, item, d, a, b, sub := FindLast(tr, x);
    if !ok { return; }
    tr.tree := RemoveFound(tr, x, l, p, item, d, a, b, sub);
    tr.repr := tr.repr - {x};
  }

  /** Avl::remove once the node has been found. */
  method RemoveFound(tr: AvlTree, x: Node, l: Link, p: Link, item0: Link, d: bool,
                     ghost a: Path<Node>, ghost b: Path<Node>, ghost sub: Tree<Node>)
    returns (ghost t: Tree<Node>)
    requires tr.Valid() && sub.Node? && Hunt(tr.tree, a, b, sub, l, p, x)
    requires Child(sub, d).Leaf? && d == Larger(x.key, sub.val.key)
    requires (Occurs(Cat(a, b), x) || sub.val == x) && item0 == ItemLink(Root, Cat(a, b), x)
    modifies tr`root, tr.repr
    ensures Rep(tr.root, t) && Removed(tr.tree, t, x)
  {
    ReadyToRepair(tr.tree, a, b, sub, l, p, x);
    Removable(tr.tree, a, b, sub, l, p, x, d);
    var item := RepairDown(tr, x, p, item0, a, b, sub);
    ghost var c := Cat(a, FixPath(b));
    assert if sub.val == x then !d && !Occurs(c, x) else d && Occurs(c, x) && Tracks(c, x);
    t := Unlink(tr, x, l, item, d, c, sub, tr.tree);
  }

  /** The end of Avl::remove: the last node on the path takes the place of x, and its subtree its own place. */
  method Unlink(tr: AvlTree, x: Node, l: Link, item: Link, d: bool, ghost c: Path<Node>, ghost sub: Tree<Node>,
                ghost t0: Tree<Node>)
    returns (ghost t: Tree<Node>)
    requires sub.Node? && Child(sub, d).Leaf? && l == EndLink(Root, c) && item == ItemLink(Root, c, x)
    requires if sub.val == x then !d && !Occurs(c, x) else d && Occurs(c, x) && Tracks(c, x)
    requires Rep(tr.root, Plug(c, sub)) && Sep(Plug(c, sub)) && Nodes(Plug(c, sub)) <= tr.repr
    requires PathOk(c, Height(Child(sub, !d))) && AvlShape.Avl(Child(sub, !d))
    requires Ordered(Keys(Flat(t0))) && Flat(t0) == LeftOf(c) + Flat(sub) + RightOf(c)
    modifies tr`root, tr.repr
    ensures Rep(tr.root, t) && Removed(t0, t, x)
  {
    tr.LoadEnd(l, c, sub);
    var last := tr.Load(l);
    if last == x {
      t := RemoveHere(tr, x, l, d, c, sub);
      RemovedHere(t0, c, sub, x);
    } else {
      ghost var u, f, w := SplitAt(Root, c, x);
      Splice(tr, x, last, l, item, u, f, w, sub);
      t := Plug(Cat(u, Go(f.(val := last), w)), sub.left);
      RemovedAbove(t0, u, f, w, sub, x);
    }
  }

  /** The final assignments of Avl::remove when the last node is x itself: all but the one to *tree store a
      value that is there already. */
  method RemoveHere(tr: AvlTree, x: Node, l: Link, d: bool, ghost c: Path<Node>, ghost sub: Tree<Node>)
    returns (ghost t: Tree<Node>)
    requires sub.Node? && sub.val == x && !d && sub.left.Leaf? && l == EndLink(Root, c)
    requires Rep(tr.root, Plug(c, sub)) && Sep(Plug(c, sub)) && Nodes(Plug(c, sub)) <= tr.repr
    modifies tr`root, tr.repr
    ensures t == Plug(c, sub.right) && Rep(tr.root, t)
  {
    SepPlug(c, sub);
    NodesPlug(c, sub);
    tr.LoadEnd(l, c, sub);
    LinkNode(l, c);
    var v := x.Lnk(!d);
    tr.Store(l, v, c);
    t := Plug(c, sub.right);
    SegTail(tr.root, c, v);
    RepPlug(tr.root, c, sub.right);
  }

  /** After the repair the path fits what is left of the last node's subtree, with all nodes in their places. */
  lemma Removable(t: Tree<Node>, a: Path<Node>, b: Path<Node>, sub: Tree<Node>, l: Link, p: Link, x: Node, d: bool)
    requires AvlShape.Avl(t) && Ordered(Keys(Flat(t))) && sub.Node? && Hunt(t, a, b, sub, l, p, x) && AllRepairable(b)
    requires Child(sub, d).Leaf? && d == Larger(x.key, sub.val.key) && (Occurs(Cat(a, b), x) || sub.val == x)
    ensures var c := Cat(a, FixPath(b));
            && PathOk(c, Height(Child(sub, !d))) && AvlShape.Avl(Child(sub, !d))
            && Flat(t) == LeftOf(c) + Flat(sub) + RightOf(c)
            && (sub.val == x ==> !d && !Occurs(Cat(a, b), x)) && (sub.val != x ==> d)
  {
    PlugAvl(Cat(a, b), sub);
    RemovePathOk(a, b, Height(sub));
    assert Height(Child(sub, !d)) == Height(sub) - 1;
    PlugFlat(Cat(a, b), sub);
    if Occurs(Cat(a, b), x) {
      NotTwice(sub, x);
      assert Flat(sub)[|Flat(sub.left)|] == sub.val;
      assert Top(Keys(Flat(sub))[|Flat(sub.left)|]) <= x.key.base;
    }
  }

  /** The outcome when x is the last node. */
  lemma RemovedHere(t: Tree<Node>, c: Path<Node>, sub: Tree<Node>, x: Node)
    requires sub.Node? && sub.val == x && sub.left.Leaf? && Ordered(Keys(Flat(t)))
    requires Flat(t) == LeftOf(c) + Flat(sub) + RightOf(c)
    requires PathOk(c, Height(sub.right)) && AvlShape.Avl(sub.right)
    ensures Removed(t, Plug(c, sub.right), x)
  {
    PlugAvl(c, sub.right);
    PlugFlat(c, sub.right);
    assert Flat(sub) == [] + [x] + Flat(sub.right) == [x] + Flat(sub.right);
    Shifting(LeftOf(c), x, Flat(sub.right), RightOf(c));
    RemovedFlat(t, Plug(c, sub.right), LeftOf(c), Flat(sub.right) + RightOf(c), x);
  }

  /** Exactly x is gone: the rest keeps its order and the result is a balanced tree. */
  ghost predicate Removed(t: Tree<Node>, t': Tree<Node>, x: Node) {
    && AvlShape.Avl(t') && Ordered(Keys(Flat(t')))
    && Keys(Flat(t')) == RemoveFrom(Keys(Flat(t)), x.key) && Nodes(t') == Nodes(t) - {x}
  }

  /** The outcome when the last node takes the place of x. */
  lemma RemovedAbove(t: Tree<Node>, u: Path<Node>, f: Frame<Node>, w: Path<Node>, sub: Tree<Node>, x: Node)
    requires sub.Node? && sub.right.Leaf? && f.val == x && !f.dir && AllRight(w) && Ordered(Keys(Flat(t)))
    requires Flat(t) == LeftOf(Cat(u, Go(f, w))) + Flat(sub) + RightOf(Cat(u, Go(f, w)))
    requires PathOk(Cat(u, Go(f, w)), Height(sub.left)) && AvlShape.Avl(sub.left)
    ensures Removed(t, Plug(Cat(u, Go(f.(val := sub.val), w)), sub.left), x)
  {
    var g := f.(val := sub.val);
    var c, c' := Cat(u, Go(f, w)), Cat(u, Go(g, w));
    PathCat(u, Go(f, w), Height(sub.left));
    PathCat(u, Go(g, w), Height(sub.left));
    PlugAvl(c', sub.left);
    PlugFlat(c', sub.left);
    SidesCat(u, Go(f, w));
    SidesCat(u, Go(g, w));
    AllRightSides(w);
    assert RightOf(Go(f, w)) == [x] + Flat(f.other) && RightOf(Go(g, w)) == [sub.val] + Flat(f.other);
    var l, r := LeftOf(c) + Flat(sub), Flat(f.other) + RightOf(u);
    Splitting(LeftOf(c), Flat(sub.left), sub.val, x, Flat(f.other), RightOf(u));
    assert Flat(sub) == Flat(sub.left) + [sub.val];
    RemovedFlat(t, Plug(c', sub.left), l, r, x);
  }

  lemma Shifting(a: seq<Node>, x: Node, m: seq<Node>, r: seq<Node>)
    ensures a + ([x] + m) + r == a + [x] + (m + r) && a + m + r == a + (m + r)
  {
  }

  lemma Splitting(a: seq<Node>, s: seq<Node>, y: Node, x: Node, o: seq<Node>, r: seq<Node>)
    ensures a + (s + [y]) + (([x] + o) + r) == (a + (s + [y])) + [x] + (o + r)
    ensures a + s + (([y] + o) + r) == (a + (s + [y])) + (o + r)
  {
  }

  lemma RemovedFlat(t: Tree<Node>, t': Tree<Node>, l: seq<Node>, r: seq<Node>, x: Node)
    requires Ordered(Keys(Flat(t))) && Flat(t) == l + [x] + r && Flat(t') == l + r
    ensures Ordered(Keys(Flat(t'))) && Keys(Flat(t')) == RemoveFrom(Keys(Flat(t)), x.key) && Nodes(t') == Nodes(t) - {x}
  {
    KeysConcat(l, r);
    KeysConcat(l, [x]);
    KeysConcat(l + [x], r);
    assert Keys([x]) == [x.key];
    OrderedWithout(Keys(l), Keys(r), x.key);
    RemoveSplit(Keys(l), Keys(r), x.key);
    OrderedDistinct(Flat(t));
    DistinctParts(l, x, r);
    NodesFlat(t);
    NodesFlat(t');
    ElemsConcat(l, r);
    ElemsConcat(l, [x]);
    ElemsConcat(l + [x], r);
  }

  lemma OrderedWithout(l: seq<Entry>, r: seq<Entry>, e: Entry)
    requires Ordered(l + [e] + r)
    ensures Ordered(l + r) && e !in l
  {
    var s, t := l + [e] + r, l + r;
    forall i | 0 <= i < |t|
      ensures Wf(t[i])
    { assert t[i] == s[if i < |l| then i else i + 1]; }
    forall i, j | 0 <= i < j < |t|
      ensures Top(t[i]) <= t[j].base
    {
      var i', j' := if i < |l| then i else i + 1, if j < |l| then j else j + 1;
      assert t[i] == s[i'] && t[j] == s[j'] && Top(s[i']) <= s[j'].base;
    }
    forall i | 0 <= i < |l|
      ensures l[i] != e
    { assert s[i] == l[i] && s[|l|] == e && Top(s[i]) <= s[|l|].base; }
  }

  /** What the first loop hands over to the second one. */
  lemma ReadyToRepair(t: Tree<Node>, a: Path<Node>, b: Path<Node>, sub: Tree<Node>, l: Link, p: Link, x: Node)
    requires AvlShape.Avl(t) && Ordered(Keys(Flat(t))) && sub.Node? && Hunt(t, a, b, sub, l, p, x)
    requires Occurs(Cat(a, b), x) || sub.val == x
    ensures Repairing(a, b, sub, x, p, ItemLink(Root, Cat(a, b), x), Nodes(t))
    ensures PathOk(Cat(a, b), Height(sub)) && AvlShape.Avl(sub)
  {
    OrderedDistinct(Flat(t));
    DistinctSep(t);
    PlugAvl(Cat(a, b), sub);
    PathCat(a, b, Height(sub));
    PathRepairable(b, Height(sub));
    PathAllAvl(b, Height(sub));
    TurnedCat(a, b, x.key);
  }

  lemma {:induction false} PathAllAvl(p: Path<Node>, h: nat)
    requires PathOk(p, h)
    ensures AllAvl(p)
  {
    if p.Go? { PathAllAvl(p.rest, h); }
  }
}
