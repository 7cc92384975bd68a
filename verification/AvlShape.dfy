/** The shape theory behind src/avl.cpp: trees with a stored balance, and the path of ancestors that a
    downward walk leaves behind.

    A stored balance is 2 for equal heights, 0 when the left and 1 when the right subtree is higher. */
module AvlShape {

  datatype Tree<T> = Leaf | Node(left: Tree<T>, val: T, bal: nat, right: Tree<T>)

  /** One ancestor of the link a walk has reached: the walk left `val` in direction `dir`. */
  datatype Frame<T> = Frame(dir: bool, val: T, bal: nat, other: Tree<T>)

  /** The ancestors of a link, outermost first. */
  datatype Path<T> = End | Go(f: Frame<T>, rest: Path<T>)

  function Side(d: bool): nat { if d then 1 else 0 }

  function MaxNat(a: nat, b: nat): nat { if a >= b then a else b }

  function Height<T>(t: Tree<T>): nat {
    if t.Leaf? then 0 else 1 + MaxNat(Height(t.left), Height(t.right))
  }

  /** The nodes of a tree in order. */
  function Flat<T>(t: Tree<T>): seq<T> {
    if t.Leaf? then [] else Flat(t.left) + [t.val] + Flat(t.right)
  }

  /** The balance of a node whose child in direction d has height `near` and the other one `far`. */
  function BalOf(d: bool, near: nat, far: nat): nat {
    if near == far then 2 else if near > far then Side(d) else Side(!d)
  }

  /** Heights differ by at most one and every stored balance is the real one. */
  predicate Avl<T>(t: Tree<T>) {
    t.Node? ==>
      && Avl(t.left) && Avl(t.right)
      && Height(t.left) <= Height(t.right) + 1 && Height(t.right) <= Height(t.left) + 1
      && t.bal == BalOf(false, Height(t.left), Height(t.right))
  }

  function Child<T>(t: Tree<T>, d: bool): Tree<T>
    requires t.Node?
  {
    if d then t.right else t.left
  }

  /** The node with `near` as its child in direction d. */
  function Mk<T>(d: bool, x: T, b: nat, near: Tree<T>, far: Tree<T>): Tree<T> {
    if d then Node(far, x, b, near) else Node(near, x, b, far)
  }

  function Single<T>(x: T): Tree<T> { Node(Leaf, x, 2, Leaf) }

  function Fill<T>(f: Frame<T>, t: Tree<T>): Tree<T> { Mk(f.dir, f.val, f.bal, t, f.other) }

  /** The whole tree when t hangs at the end of the path. */
  function Plug<T>(p: Path<T>, t: Tree<T>): Tree<T> {
    if p.End? then t else Fill(p.f, Plug(p.rest, t))
  }

  function Cat<T>(p: Path<T>, q: Path<T>): Path<T> {
    if p.End? then q else Go(p.f, Cat(p.rest, q))
  }

  function Snoc<T>(p: Path<T>, f: Frame<T>): Path<T> { Cat(p, Go(f, End)) }

  function Before<T>(f: Frame<T>): seq<T> { if f.dir then Flat(f.other) + [f.val] else [] }

  function After<T>(f: Frame<T>): seq<T> { if f.dir then [] else [f.val] + Flat(f.other) }

  /** The nodes to the left of the end of the path. */
  function LeftOf<T>(p: Path<T>): seq<T> { if p.End? then [] else Before(p.f) + LeftOf(p.rest) }

  /** The nodes to the right of the end of the path. */
  function RightOf<T>(p: Path<T>): seq<T> { if p.End? then [] else RightOf(p.rest) + After(p.f) }

  predicate FrameOk<T>(f: Frame<T>, h: nat) {
    && Avl(f.other)
    && h <= Height(f.other) + 1 && Height(f.other) <= h + 1
    && f.bal == BalOf(f.dir, h, Height(f.other))
  }

  function FrameHeight<T>(f: Frame<T>, h: nat): nat { 1 + MaxNat(h, Height(f.other)) }

  /** The height of the whole tree when a subtree of height h hangs at the end of the path. */
  function PathHeight<T>(p: Path<T>, h: nat): nat {
    if p.End? then h else FrameHeight(p.f, PathHeight(p.rest, h))
  }

  /** The path is correctly balanced around a subtree of height h. */
  predicate PathOk<T>(p: Path<T>, h: nat) {
    p.Go? ==> PathOk(p.rest, h) && FrameOk(p.f, PathHeight(p.rest, h))
  }

  // ----- paths

  lemma Assoc<T>(a: seq<T>, b: seq<T>, c: seq<T>)
    ensures (a + b) + c == a + (b + c)
  {
  }

  lemma {:induction false} CatEnd<T>(p: Path<T>)
    ensures Cat(p, End) == p
  {
    if p.Go? { CatEnd(p.rest); }
  }

  lemma {:induction false} CatAssoc<T>(p: Path<T>, q: Path<T>, r: Path<T>)
    ensures Cat(Cat(p, q), r) == Cat(p, Cat(q, r))
  {
    if p.Go? { CatAssoc(p.rest, q, r); }
  }

  lemma {:induction false} PlugCat<T>(p: Path<T>, q: Path<T>, t: Tree<T>)
    ensures Plug(Cat(p, q), t) == Plug(p, Plug(q, t))
  {
    if p.Go? { PlugCat(p.rest, q, t); }
  }

  lemma {:induction false} SidesCat<T>(p: Path<T>, q: Path<T>)
    ensures LeftOf(Cat(p, q)) == LeftOf(p) + LeftOf(q)
    ensures RightOf(Cat(p, q)) == RightOf(q) + RightOf(p)
  {
    if p.Go? {
      SidesCat(p.rest, q);
      Assoc(Before(p.f), LeftOf(p.rest), LeftOf(q));
      Assoc(RightOf(q), RightOf(p.rest), After(p.f));
    }
  }

  lemma {:induction false} PathCat<T>(p: Path<T>, q: Path<T>, h: nat)
    ensures PathOk(Cat(p, q), h) <==> PathOk(q, h) && PathOk(p, PathHeight(q, h))
    ensures PathHeight(Cat(p, q), h) == PathHeight(p, PathHeight(q, h))
  {
    if p.Go? { PathCat(p.rest, q, h); }
  }

  lemma MkFlat<T>(d: bool, x: T, b: nat, near: Tree<T>, far: Tree<T>)
    ensures Flat(Mk(d, x, b, near, far)) == if d then Flat(far) + ([x] + Flat(near)) else Flat(near) + ([x] + Flat(far))
  {
    Assoc(Flat(far), [x], Flat(near));
    Assoc(Flat(near), [x], Flat(far));
  }

  lemma FillFlat<T>(f: Frame<T>, t: Tree<T>)
    ensures Flat(Fill(f, t)) == Before(f) + Flat(t) + After(f)
  {
    MkFlat(f.dir, f.val, f.bal, t, f.other);
    Assoc(Flat(f.other), [f.val], Flat(t));
  }

  lemma Surround<T>(a: seq<T>, b: seq<T>, m: seq<T>, c: seq<T>, d: seq<T>)
    ensures a + (b + m + c) + d == (a + b) + m + (c + d)
  {
  }

  lemma {:induction false} PlugFlat<T>(p: Path<T>, t: Tree<T>)
    ensures Flat(Plug(p, t)) == LeftOf(p) + Flat(t) + RightOf(p)
  {
    if p.Go? {
      PlugFlat(p.rest, t);
      FillFlat(p.f, Plug(p.rest, t));
      Surround(Before(p.f), LeftOf(p.rest), Flat(t), RightOf(p.rest), After(p.f));
    }
  }

  lemma FillAvl<T>(f: Frame<T>, t: Tree<T>)
    ensures Avl(Fill(f, t)) <==> Avl(t) && FrameOk(f, Height(t))
    ensures Height(Fill(f, t)) == FrameHeight(f, Height(t))
  {
  }

  /** A plugged tree is balanced exactly when its path is, for the height of the plugged part. */
  lemma {:induction false} PlugAvl<T>(p: Path<T>, t: Tree<T>)
    ensures Avl(Plug(p, t)) <==> Avl(t) && PathOk(p, Height(t))
    ensures Height(Plug(p, t)) == PathHeight(p, Height(t))
  {
    if p.Go? {
      PlugAvl(p.rest, t);
      FillAvl(p.f, Plug(p.rest, t));
    }
  }

  // ----- rotations (src/avl.cpp:22-58)

  /** The child in direction d becomes the root; both balances become 2. */
  function Rotate1<T>(t: Tree<T>, d: bool): Tree<T>
    requires t.Node? && Child(t, d).Node?
  {
    var c := Child(t, d);
    Mk(d, c.val, 2, Child(c, d), Mk(d, t.val, 2, Child(c, !d), Child(t, !d)))
  }

  /** The inner grandchild g becomes the root; b names g's higher side, 2 if there is none. */
  function Rotate2<T>(t: Tree<T>, d: bool, b: nat): Tree<T>
    requires t.Node? && Child(t, d).Node? && Child(Child(t, d), !d).Node?
  {
    var c := Child(t, d);
    var g := Child(c, !d);
    Mk(d, g.val, 2,
       Mk(d, c.val, if b == Side(!d) then Side(d) else 2, Child(c, d), Child(g, d)),
       Mk(d, t.val, if b == Side(d) then Side(!d) else 2, Child(g, !d), Child(t, !d)))
  }

  /** Rotations keep the order of the nodes. */
  lemma RotateFlat<T>(t: Tree<T>, d: bool, b: nat)
    requires t.Node? && Child(t, d).Node?
    ensures Flat(Rotate1(t, d)) == Flat(t)
    ensures Child(Child(t, d), !d).Node? ==> Flat(Rotate2(t, d, b)) == Flat(t)
  {
    var c := Child(t, d);
    var n, v, i, o, x := [t.val], [c.val], Flat(Child(c, !d)), Flat(Child(c, d)), Flat(Child(t, !d));
    if d {
      assert (x + n + i) + v + o == x + n + (i + v + o);
    } else {
      assert o + v + (i + n + x) == (o + v + i) + n + x;
    }
    if Child(c, !d).Node? {
      var g := Child(c, !d);
      var u, near, far := [g.val], Flat(Child(g, d)), Flat(Child(g, !d));
      if d {
        assert (x + n + far) + u + (near + v + o) == x + n + ((far + u + near) + v + o);
      } else {
        assert (o + v + near) + u + (far + n + x) == (o + v + (near + u + far)) + n + x;
      }
    }
  }

  // ----- insertion (src/avl.cpp:60-97)

  predicate AllBalanced<T>(p: Path<T>) { p.Go? ==> p.f.bal == 2 && AllBalanced(p.rest) }

  /** Every ancestor now leans towards the new node. */
  function Grow<T>(p: Path<T>): Path<T> {
    if p.End? then End else Go(p.f.(bal := Side(p.f.dir)), Grow(p.rest))
  }

  lemma {:induction false} GrowOk<T>(p: Path<T>, h: nat)
    requires PathOk(p, h) && AllBalanced(p)
    ensures PathOk(Grow(p), h + 1) && PathHeight(Grow(p), h + 1) == PathHeight(p, h) + 1
    ensures LeftOf(Grow(p)) == LeftOf(p) && RightOf(Grow(p)) == RightOf(p)
  {
    if p.Go? { GrowOk(p.rest, h); }
  }

  /** What a rotation makes of the top frames of the path, for the three shapes of the path. */
  function Lifted<T>(f: Frame<T>, g: Frame<T>): Frame<T> {
    Frame(f.dir, g.val, 2, Mk(f.dir, f.val, 2, g.other, f.other))
  }

  function LiftedOuter<T>(f: Frame<T>, g: Frame<T>, k: Frame<T>, r: Path<T>): Path<T> {
    Go(Frame(f.dir, k.val, 2, Mk(f.dir, f.val, Side(!f.dir), k.other, f.other)),
       Go(Frame(!f.dir, g.val, 2, g.other), r))
  }

  function LiftedInner<T>(f: Frame<T>, g: Frame<T>, k: Frame<T>, r: Path<T>): Path<T> {
    Go(Frame(!f.dir, k.val, 2, Mk(!f.dir, g.val, Side(f.dir), k.other, g.other)),
       Go(Frame(f.dir, f.val, 2, f.other), r))
  }

  /** A path below its deepest unbalanced ancestor p.f, long enough for the rotation it calls for. */
  predicate InsertShape<T>(p: Path<T>) {
    && p.Go? && p.f.bal != 2 && AllBalanced(p.rest)
    && (p.f.bal == Side(p.f.dir) ==> p.rest.Go? && (p.rest.f.dir != p.f.dir ==> p.rest.rest.Go?))
  }

  /** What the repair of p.f makes of the path. */
  function InsertPath<T>(p: Path<T>): Path<T>
    requires InsertShape(p)
  {
    var f, r := p.f, p.rest;
    if f.bal != Side(f.dir) then Go(f.(bal := 2), Grow(r))
    else if r.f.dir == f.dir then Go(Lifted(f, r.f), Grow(r.rest))
    else if r.rest.f.dir == f.dir then LiftedOuter(f, r.f, r.rest.f, Grow(r.rest.rest))
    else LiftedInner(f, r.f, r.rest.f, Grow(r.rest.rest))
  }

  // The local repairs: balance and height first, then the order of the nodes.

  lemma LiftedOk<T>(f: Frame<T>, g: Frame<T>, h: nat)
    requires FrameOk(g, h) && g.bal == 2 && FrameOk(f, FrameHeight(g, h)) && f.bal == Side(f.dir) && g.dir == f.dir
    ensures FrameOk(Lifted(f, g), h + 1) && FrameHeight(Lifted(f, g), h + 1) == FrameHeight(f, FrameHeight(g, h))
  {
  }

  lemma LiftedSides<T>(f: Frame<T>, g: Frame<T>)
    requires g.dir == f.dir
    ensures Before(Lifted(f, g)) == Before(f) + Before(g) && After(Lifted(f, g)) == After(g) + After(f)
  {
    MkFlat(f.dir, f.val, 2, g.other, f.other);
    Assoc(Flat(f.other), [f.val], Flat(g.other));
    Assoc(Flat(f.other) + [f.val], Flat(g.other), [g.val]);
    Assoc([g.val], Flat(g.other), [f.val] + Flat(f.other));
  }

  lemma LiftedOuterOk<T>(f: Frame<T>, g: Frame<T>, k: Frame<T>, h: nat)
    requires FrameOk(k, h) && k.bal == 2 && FrameOk(g, FrameHeight(k, h)) && g.bal == 2
    requires FrameOk(f, FrameHeight(g, FrameHeight(k, h))) && f.bal == Side(f.dir)
    requires g.dir != f.dir && k.dir == f.dir
    ensures var c := LiftedOuter(f, g, k, End);
            && FrameOk(c.rest.f, h + 1) && FrameOk(c.f, FrameHeight(c.rest.f, h + 1))
            && FrameHeight(c.f, FrameHeight(c.rest.f, h + 1)) == FrameHeight(f, FrameHeight(g, FrameHeight(k, h)))
  {
  }

  lemma LiftedInnerOk<T>(f: Frame<T>, g: Frame<T>, k: Frame<T>, h: nat)
    requires FrameOk(k, h) && k.bal == 2 && FrameOk(g, FrameHeight(k, h)) && g.bal == 2
    requires FrameOk(f, FrameHeight(g, FrameHeight(k, h))) && f.bal == Side(f.dir)
    requires g.dir != f.dir && k.dir != f.dir
    ensures var c := LiftedInner(f, g, k, End);
            && FrameOk(c.rest.f, h + 1) && FrameOk(c.f, FrameHeight(c.rest.f, h + 1))
            && FrameHeight(c.f, FrameHeight(c.rest.f, h + 1)) == FrameHeight(f, FrameHeight(g, FrameHeight(k, h)))
  {
  }

  lemma LiftedOuterSides<T>(f: Frame<T>, g: Frame<T>, k: Frame<T>)
    requires g.dir != f.dir && k.dir == f.dir
    ensures var c := LiftedOuter(f, g, k, End);
            && Before(c.f) + Before(c.rest.f) == Before(f) + Before(g) + Before(k)
            && After(c.rest.f) + After(c.f) == After(k) + After(g) + After(f)
  {
    MkFlat(f.dir, f.val, Side(!f.dir), k.other, f.other);
  }

  lemma LiftedInnerSides<T>(f: Frame<T>, g: Frame<T>, k: Frame<T>)
    requires g.dir != f.dir && k.dir != f.dir
    ensures var c := LiftedInner(f, g, k, End);
            && Before(c.f) + Before(c.rest.f) == Before(f) + Before(g) + Before(k)
            && After(c.rest.f) + After(c.f) == After(k) + After(g) + After(f)
  {
    MkFlat(!f.dir, g.val, Side(f.dir), k.other, g.other);
  }

  lemma DoubleShape<T>(p: Path<T>, h: nat)
    requires InsertShape(p) && PathOk(p, h) && p.f.bal == Side(p.f.dir) && p.rest.f.dir != p.f.dir
    ensures var g, k, q := p.rest.f, p.rest.rest.f, p.rest.rest.rest;
            && AllBalanced(q) && k.bal == 2 && g.bal == 2
            && PathOk(q, h) && FrameOk(k, PathHeight(q, h)) && FrameOk(g, FrameHeight(k, PathHeight(q, h)))
            && FrameOk(p.f, FrameHeight(g, FrameHeight(k, PathHeight(q, h))))
            && PathHeight(p, h) == FrameHeight(p.f, FrameHeight(g, FrameHeight(k, PathHeight(q, h))))
  {
    assert AllBalanced(p.rest.rest) && PathOk(p.rest, h) && PathOk(p.rest.rest, h);
  }

  function LiftedTwice<T>(f: Frame<T>, g: Frame<T>, k: Frame<T>, q: Path<T>): Path<T> {
    if k.dir == f.dir then LiftedOuter(f, g, k, q) else LiftedInner(f, g, k, q)
  }

  lemma LiftedTwiceOk<T>(f: Frame<T>, g: Frame<T>, k: Frame<T>, q: Path<T>, h: nat)
    requires AllBalanced(q) && PathOk(q, h) && k.bal == 2 && g.bal == 2 && f.bal == Side(f.dir) && g.dir != f.dir
    requires FrameOk(k, PathHeight(q, h)) && FrameOk(g, FrameHeight(k, PathHeight(q, h)))
    requires FrameOk(f, FrameHeight(g, FrameHeight(k, PathHeight(q, h))))
    ensures var c := LiftedTwice(f, g, k, Grow(q));
            && PathOk(c, h + 1)
            && PathHeight(c, h + 1) == FrameHeight(f, FrameHeight(g, FrameHeight(k, PathHeight(q, h))))
  {
    GrowOk(q, h);
    if k.dir == f.dir {
      LiftedOuterOk(f, g, k, PathHeight(q, h));
      TwoFramesOk(LiftedOuter(f, g, k, Grow(q)), h + 1);
    } else {
      LiftedInnerOk(f, g, k, PathHeight(q, h));
      TwoFramesOk(LiftedInner(f, g, k, Grow(q)), h + 1);
    }
  }

  lemma InsertPathOkDouble<T>(p: Path<T>, h: nat)
    requires InsertShape(p) && PathOk(p, h) && p.f.bal == Side(p.f.dir) && p.rest.f.dir != p.f.dir
    ensures PathOk(InsertPath(p), h + 1) && PathHeight(InsertPath(p), h + 1) == PathHeight(p, h)
  {
    var f, g, k, q := p.f, p.rest.f, p.rest.rest.f, p.rest.rest.rest;
    DoubleShape(p, h);
    LiftedTwiceOk(f, g, k, q, h);
    assert InsertPath(p) == LiftedTwice(f, g, k, Grow(q));
  }

  lemma TwoFramesOk<T>(p: Path<T>, h: nat)
    requires p.Go? && p.rest.Go?
    ensures var f, g, q := p.f, p.rest.f, p.rest.rest;
            && (PathOk(p, h) <==>
                PathOk(q, h) && FrameOk(g, PathHeight(q, h)) && FrameOk(f, FrameHeight(g, PathHeight(q, h))))
            && PathHeight(p, h) == FrameHeight(f, FrameHeight(g, PathHeight(q, h)))
  {
    assert PathOk(p.rest, h) <==> PathOk(p.rest.rest, h) && FrameOk(p.rest.f, PathHeight(p.rest.rest, h));
  }

  lemma TwoFrames<T>(p: Path<T>, h: nat)
    requires p.Go? && p.rest.Go?
    ensures var f, g, q := p.f, p.rest.f, p.rest.rest;
            && (PathOk(p, h) <==>
                PathOk(q, h) && FrameOk(g, PathHeight(q, h)) && FrameOk(f, FrameHeight(g, PathHeight(q, h))))
            && PathHeight(p, h) == FrameHeight(f, FrameHeight(g, PathHeight(q, h)))
            && LeftOf(p) == Before(f) + (Before(g) + LeftOf(q))
            && RightOf(p) == (RightOf(q) + After(g)) + After(f)
  {
    TwoFramesOk(p, h);
  }

  /** The repair at the deepest unbalanced ancestor restores balance and keeps the height above it. */
  lemma InsertPathOk<T>(p: Path<T>, h: nat)
    requires InsertShape(p) && PathOk(p, h)
    ensures PathOk(InsertPath(p), h + 1) && PathHeight(InsertPath(p), h + 1) == PathHeight(p, h)
  {
    var f, r := p.f, p.rest;
    if f.bal != Side(f.dir) {
      GrowOk(r, h);
    } else if r.f.dir == f.dir {
      GrowOk(r.rest, h);
      LiftedOk(f, r.f, PathHeight(r.rest, h));
    } else {
      InsertPathOkDouble(p, h);
    }
  }

  /** The repair keeps the order of the nodes. */
  lemma InsertPathSides<T>(p: Path<T>, h: nat)
    requires InsertShape(p) && PathOk(p, h)
    ensures LeftOf(InsertPath(p)) == LeftOf(p) && RightOf(InsertPath(p)) == RightOf(p)
  {
    var f, r := p.f, p.rest;
    if f.bal != Side(f.dir) {
      GrowOk(r, h);
    } else if r.f.dir == f.dir {
      GrowOk(r.rest, h);
      LiftedSides(f, r.f);
      Assoc(Before(f), Before(r.f), LeftOf(r.rest));
      Assoc(RightOf(r.rest), After(r.f), After(f));
    } else {
      InsertPathSidesDouble(p, h);
    }
  }

  lemma InsertPathSidesDouble<T>(p: Path<T>, h: nat)
    requires InsertShape(p) && PathOk(p, h) && p.f.bal == Side(p.f.dir) && p.rest.f.dir != p.f.dir
    ensures LeftOf(InsertPath(p)) == LeftOf(p) && RightOf(InsertPath(p)) == RightOf(p)
  {
    var f, g, k, q := p.f, p.rest.f, p.rest.rest.f, p.rest.rest.rest;
    DoubleShape(p, h);
    GrowOk(q, h);
    TwoFrames(p.rest, h);
    var c;
    if k.dir == f.dir {
      LiftedOuterSides(f, g, k);
      TwoFrames(LiftedOuter(f, g, k, Grow(q)), h);
      c := LiftedOuter(f, g, k, End);
    } else {
      LiftedInnerSides(f, g, k);
      TwoFrames(LiftedInner(f, g, k, Grow(q)), h);
      c := LiftedInner(f, g, k, End);
    }
    Regroup2(Before(f), Before(g), Before(k), LeftOf(q), Before(c.f), Before(c.rest.f));
    Regroup3(RightOf(q), After(k), After(g), After(f), After(c.rest.f), After(c.f));
  }

  lemma Regroup2<T>(a: seq<T>, b: seq<T>, c: seq<T>, r: seq<T>, x: seq<T>, y: seq<T>)
    requires x + y == a + b + c
    ensures x + (y + r) == a + (b + (c + r))
  {
    assert x + (y + r) == (x + y) + r;
    assert a + (b + (c + r)) == (a + b + c) + r;
  }

  lemma Regroup3<T>(r: seq<T>, c: seq<T>, b: seq<T>, a: seq<T>, y: seq<T>, x: seq<T>)
    requires y + x == c + b + a
    ensures (r + y) + x == ((r + c) + b) + a
  {
    assert (r + y) + x == r + (y + x);
    assert ((r + c) + b) + a == r + (c + b + a);
  }

  lemma SingleOk<T>(x: T)
    ensures Flat(Single(x)) == [x] && Avl(Single(x)) && Height(Single(x)) == 1
  {
  }

  /** The double rotation that lifts the new node itself over its grandparent. */
  lemma InsertAtGrandchild<T>(f: Frame<T>, g: Frame<T>, x: T)
    requires FrameOk(g, 0) && g.bal == 2 && FrameOk(f, 1) && f.bal == Side(f.dir) && g.dir != f.dir
    ensures var r := Rotate2(Fill(f, Fill(g, Single(x))), f.dir, 2);
            && Avl(r) && Height(r) == FrameHeight(f, 1)
            && Flat(r) == (Before(f) + Before(g)) + [x] + (After(g) + After(f))
  {
    var t := Fill(f, Fill(g, Single(x)));
    RotateFlat(t, f.dir, 2);
    FillFlat(g, Single(x));
    FillFlat(f, Fill(g, Single(x)));
    SingleOk(x);
    Surround(Before(f), Before(g), [x], After(g), After(f));
    assert f.other.Leaf? && g.other.Leaf?;
  }

  /** The rotations of the tree are the repairs of the path. */
  lemma Rotate1Path<T>(f: Frame<T>, g: Frame<T>, r: Path<T>, x: Tree<T>)
    requires g.dir == f.dir
    ensures var t := Plug(Go(f, Go(g, r)), x);
            && t.Node? && Child(t, f.dir) == Fill(g, Plug(r, x))
            && Rotate1(t, f.dir) == Fill(Lifted(f, g), Plug(r, x))
  {
  }

  lemma Rotate2Path<T>(f: Frame<T>, g: Frame<T>, k: Frame<T>, r: Path<T>, x: Tree<T>)
    requires g.dir != f.dir
    ensures var t := Plug(Go(f, Go(g, Go(k, r))), x);
            && t.Node? && Child(t, f.dir) == Fill(g, Fill(k, Plug(r, x)))
            && Rotate2(t, f.dir, Side(k.dir))
               == Plug(if k.dir == f.dir then LiftedOuter(f, g, k, r) else LiftedInner(f, g, k, r), x)
  {
    assert Plug(Go(g, Go(k, r)), x) == Fill(g, Fill(k, Plug(r, x)));
    var q := if k.dir == f.dir then LiftedOuter(f, g, k, r) else LiftedInner(f, g, k, r);
    assert Plug(q, x) == Fill(q.f, Fill(q.rest.f, Plug(r, x)));
  }

  /** The new node itself is the inner grandchild. */
  predicate AtGrandchild<T>(p: Path<T>)
    requires p.Go?
  {
    p.f.bal == Side(p.f.dir) && p.rest.Go? && p.rest.f.dir != p.f.dir && p.rest.rest.End?
  }

  /** A path below its deepest unbalanced ancestor that ends in an empty link. */
  predicate InsertPoint<T>(p: Path<T>) {
    p.Go? && p.f.bal != 2 && AllBalanced(p.rest) && PathOk(p, 0)
  }

  lemma InsertPointShape<T>(p: Path<T>)
    requires InsertPoint(p)
    ensures AtGrandchild(p) || InsertShape(p)
  {
    if p.rest.Go? { assert AllBalanced(p.rest.rest); }
  }

  /** The subtree that insertion of x leaves at the deepest unbalanced ancestor. */
  function InsertTree<T>(p: Path<T>, x: T): Tree<T>
    requires InsertPoint(p)
  {
    InsertPointShape(p);
    if AtGrandchild(p) then Rotate2(Fill(p.f, Fill(p.rest.f, Single(x))), p.f.dir, 2)
    else Plug(InsertPath(p), Single(x))
  }

  lemma InsertGrandchildOk<T>(b: Path<T>, x: T)
    requires InsertPoint(b) && AtGrandchild(b)
    ensures var r := Rotate2(Fill(b.f, Fill(b.rest.f, Single(x))), b.f.dir, 2);
            Avl(r) && Height(r) == PathHeight(b, 0) && Flat(r) == LeftOf(b) + [x] + RightOf(b)
  {
    TwoFrames(b, 0);
    InsertAtGrandchild(b.f, b.rest.f, x);
    assert Before(b.rest.f) + [] == Before(b.rest.f) && [] + After(b.rest.f) == After(b.rest.f);
  }

  lemma InsertBelowOk<T>(b: Path<T>, x: T)
    requires InsertPoint(b)
    ensures var r := InsertTree(b, x);
            Avl(r) && Height(r) == PathHeight(b, 0) && Flat(r) == LeftOf(b) + [x] + RightOf(b)
  {
    InsertPointShape(b);
    SingleOk(x);
    if AtGrandchild(b) {
      InsertGrandchildOk(b, x);
    } else {
      InsertPathOk(b, 0);
      InsertPathSides(b, 0);
      PlugAvl(InsertPath(b), Single(x));
      PlugFlat(InsertPath(b), Single(x));
    }
  }

  /** Insertion below the path Cat(a, b): the tree is balanced, x is where the search ended, nothing else moved. */
  lemma InsertTreeOk<T>(a: Path<T>, b: Path<T>, x: T)
    requires PathOk(Cat(a, b), 0) && InsertPoint(b)
    ensures Avl(Plug(a, InsertTree(b, x)))
    ensures Flat(Plug(a, InsertTree(b, x))) == LeftOf(Cat(a, b)) + [x] + RightOf(Cat(a, b))
  {
    PathCat(a, b, 0);
    SidesCat(a, b);
    InsertPointShape(b);
    var r := InsertTree(b, x);
    InsertBelowOk(b, x);
    PlugAvl(a, r);
    PlugFlat(a, r);
    Surround(LeftOf(a), LeftOf(b), [x], RightOf(b), RightOf(a));
  }

  /** When every ancestor is balanced the whole tree grows. */
  lemma GrowTreeOk<T>(p: Path<T>, x: T)
    requires PathOk(p, 0) && AllBalanced(p)
    ensures Avl(Plug(Grow(p), Single(x)))
    ensures Flat(Plug(Grow(p), Single(x))) == LeftOf(p) + [x] + RightOf(p)
  {
    GrowOk(p, 0);
    PlugAvl(Grow(p), Single(x));
    PlugFlat(Grow(p), Single(x));
    SingleOk(x);
  }

  // ----- removal (src/avl.cpp:99-163)

  /** A height loss below f does not pass f: f was balanced, or the sibling that has to be lifted is. */
  predicate Absorbs<T>(f: Frame<T>) {
    f.bal == 2 || (f.bal == Side(!f.dir) && f.other.Node? && f.other.bal == 2)
  }

  predicate NoneAbsorbs<T>(p: Path<T>) { p.Go? ==> !Absorbs(p.f) && NoneAbsorbs(p.rest) }

  /** The sibling and, for a double rotation, its inner child exist. */
  predicate Repairable<T>(f: Frame<T>) {
    && f.bal <= 2
    && (f.bal == Side(!f.dir) ==>
          f.other.Node? && (f.other.bal == Side(f.dir) ==> Child(f.other, f.dir).Node?))
  }

  predicate AllRepairable<T>(p: Path<T>) { p.Go? ==> Repairable(p.f) && AllRepairable(p.rest) }

  function SiblingUp<T>(f: Frame<T>, r: Path<T>): Path<T>
    requires f.other.Node?
  {
    var d, s := f.dir, f.other;
    Go(Frame(d, s.val, if s.bal == 2 then Side(d) else 2, Child(s, !d)),
       Go(Frame(d, f.val, if s.bal == 2 then Side(!d) else 2, Child(s, d)), r))
  }

  function NephewUp<T>(f: Frame<T>, r: Path<T>): Path<T>
    requires f.other.Node? && Child(f.other, f.dir).Node?
  {
    var d, s := f.dir, f.other;
    var g := Child(s, d);
    Go(Frame(d, g.val, 2, Mk(d, s.val, if g.bal == Side(d) then Side(!d) else 2, Child(g, !d), Child(s, !d))),
       Go(Frame(d, f.val, if g.bal == Side(!d) then Side(d) else 2, Child(g, d)), r))
  }

  /** The repair of one ancestor f, above the path r, when r is about to lose one level. */
  function FixFrame<T>(f: Frame<T>, r: Path<T>): Path<T>
    requires Repairable(f)
  {
    if f.bal == 2 then Go(f.(bal := Side(!f.dir)), r)
    else if f.bal == Side(f.dir) then Go(f.(bal := 2), r)
    else if f.other.bal == Side(f.dir) then NephewUp(f, r)
    else SiblingUp(f, r)
  }

  function FixPath<T>(p: Path<T>): Path<T>
    requires AllRepairable(p)
  {
    if p.End? then End else FixFrame(p.f, FixPath(p.rest))
  }

  lemma {:induction false} PathRepairable<T>(p: Path<T>, h: nat)
    requires PathOk(p, h) && h >= 1
    ensures AllRepairable(p) && PathHeight(p, h) >= 1
  {
    if p.Go? { PathRepairable(p.rest, h); }
  }

  lemma SiblingUpOk<T>(f: Frame<T>, h: nat)
    requires FrameOk(f, h) && h >= 1 && f.bal == Side(!f.dir) && f.other.Node? && f.other.bal != Side(f.dir)
    ensures var c := SiblingUp(f, End);
            && FrameOk(c.rest.f, h - 1) && FrameOk(c.f, FrameHeight(c.rest.f, h - 1))
            && FrameHeight(c.f, FrameHeight(c.rest.f, h - 1))
               == if f.other.bal == 2 then FrameHeight(f, h) else FrameHeight(f, h) - 1
  {
    assert Height(f.other) == h + 1;
  }

  lemma NephewUpOk<T>(f: Frame<T>, h: nat)
    requires FrameOk(f, h) && h >= 1 && f.bal == Side(!f.dir) && f.other.Node? && f.other.bal == Side(f.dir)
    requires Child(f.other, f.dir).Node?
    ensures var c := NephewUp(f, End);
            && FrameOk(c.rest.f, h - 1) && FrameOk(c.f, FrameHeight(c.rest.f, h - 1))
            && FrameHeight(c.f, FrameHeight(c.rest.f, h - 1)) == FrameHeight(f, h) - 1
  {
    var s := f.other;
    var g := Child(s, f.dir);
    assert Height(s) == h + 1 && Height(g) == h && Height(Child(s, !f.dir)) == h - 1;
    var gn, gf := Child(g, f.dir), Child(g, !f.dir);
    assert Avl(g) && Avl(gn) && Avl(gf) && MaxNat(Height(gn), Height(gf)) == h - 1;
    assert g.bal == BalOf(f.dir, Height(gn), Height(gf));
    var c := NephewUp(f, End);
    assert FrameHeight(c.rest.f, h - 1) == h;
    assert Avl(c.f.other) && Height(c.f.other) == h;
  }

  lemma SiblingUpSides<T>(f: Frame<T>)
    requires f.other.Node?
    ensures var c := SiblingUp(f, End);
            && Before(c.f) + Before(c.rest.f) == Before(f) && After(c.rest.f) + After(c.f) == After(f)
  {
    var s, d := f.other, f.dir;
    if d {
      Assoc(Flat(s.left) + [s.val], Flat(s.right), [f.val]);
    } else {
      Assoc([f.val], Flat(s.left), [s.val] + Flat(s.right));
      Assoc(Flat(s.left), [s.val], Flat(s.right));
    }
  }

  lemma Shuffle<T>(a: seq<T>, b: seq<T>, c: seq<T>, d: seq<T>, e: seq<T>, f: seq<T>)
    ensures ((a + (b + c)) + d) + (e + f) == (a + b + (c + d + e)) + f
    ensures (a + b) + (c + (d + (e + f))) == a + ((b + c + d) + e + f)
  {
  }

  lemma NephewUpSides<T>(f: Frame<T>)
    requires f.other.Node? && Child(f.other, f.dir).Node?
    ensures var c := NephewUp(f, End);
            && Before(c.f) + Before(c.rest.f) == Before(f) && After(c.rest.f) + After(c.f) == After(f)
  {
    var s, d := f.other, f.dir;
    var g := Child(s, d);
    var gn, gf, so := Flat(Child(g, d)), Flat(Child(g, !d)), Flat(Child(s, !d));
    MkFlat(d, s.val, if g.bal == Side(d) then Side(!d) else 2, Child(g, !d), Child(s, !d));
    if d {
      assert Flat(g) == gf + [g.val] + gn && Flat(s) == so + [s.val] + Flat(g);
      Shuffle(so, [s.val], gf, [g.val], gn, [f.val]);
    } else {
      assert Flat(g) == gn + [g.val] + gf && Flat(s) == Flat(g) + [s.val] + so;
      Shuffle([f.val], gn, [g.val], gf, [s.val], so);
    }
  }

  /** A repaired frame fits a path that is one level lower; it passes the loss on unless it absorbs it. */
  lemma FixFrameOk<T>(f: Frame<T>, r: Path<T>, h: nat)
    requires Repairable(f) && FrameOk(f, PathHeight(r, h) + 1) && PathOk(r, h)
    ensures PathOk(FixFrame(f, r), h)
    ensures PathHeight(FixFrame(f, r), h)
            == if Absorbs(f) then FrameHeight(f, PathHeight(r, h) + 1) else FrameHeight(f, PathHeight(r, h) + 1) - 1
  {
    if f.bal != 2 && f.bal != Side(f.dir) { FixHeavyOk(f, r, h); } else { FixLightOk(f, r, h); }
  }

  /** The sibling is higher: a rotation. */
  lemma FixHeavyOk<T>(f: Frame<T>, r: Path<T>, h: nat)
    requires Repairable(f) && FrameOk(f, PathHeight(r, h) + 1) && PathOk(r, h)
    requires f.bal != 2 && f.bal != Side(f.dir)
    ensures PathOk(FixFrame(f, r), h)
    ensures PathHeight(FixFrame(f, r), h)
            == if Absorbs(f) then FrameHeight(f, PathHeight(r, h) + 1) else FrameHeight(f, PathHeight(r, h) + 1) - 1
  {
    if f.other.bal == Side(f.dir) { FixNephewOk(f, r, h); } else { FixSiblingOk(f, r, h); }
  }

  lemma FixNephewOk<T>(f: Frame<T>, r: Path<T>, h: nat)
    requires Repairable(f) && FrameOk(f, PathHeight(r, h) + 1) && PathOk(r, h)
    requires f.bal == Side(!f.dir) && f.other.bal == Side(f.dir)
    ensures PathOk(NephewUp(f, r), h) && PathHeight(NephewUp(f, r), h) == FrameHeight(f, PathHeight(r, h) + 1) - 1
  {
    NephewUpOk(f, PathHeight(r, h) + 1);
    TwoFramesOk(NephewUp(f, r), h);
  }

  lemma FixSiblingOk<T>(f: Frame<T>, r: Path<T>, h: nat)
    requires Repairable(f) && FrameOk(f, PathHeight(r, h) + 1) && PathOk(r, h)
    requires f.bal == Side(!f.dir) && f.other.bal != Side(f.dir)
    ensures PathOk(SiblingUp(f, r), h)
    ensures PathHeight(SiblingUp(f, r), h)
            == if Absorbs(f) then FrameHeight(f, PathHeight(r, h) + 1) else FrameHeight(f, PathHeight(r, h) + 1) - 1
  {
    SiblingUpOk(f, PathHeight(r, h) + 1);
    TwoFramesOk(SiblingUp(f, r), h);
  }

  /** It is not: only the balance changes. */
  lemma FixLightOk<T>(f: Frame<T>, r: Path<T>, h: nat)
    requires Repairable(f) && FrameOk(f, PathHeight(r, h) + 1) && PathOk(r, h)
    requires f.bal == 2 || f.bal == Side(f.dir)
    ensures PathOk(FixFrame(f, r), h)
    ensures PathHeight(FixFrame(f, r), h)
            == if Absorbs(f) then FrameHeight(f, PathHeight(r, h) + 1) else FrameHeight(f, PathHeight(r, h) + 1) - 1
  {
  }

  lemma FixFrameSides<T>(f: Frame<T>, r: Path<T>)
    requires Repairable(f)
    ensures LeftOf(FixFrame(f, r)) == Before(f) + LeftOf(r) && RightOf(FixFrame(f, r)) == RightOf(r) + After(f)
  {
    if f.bal != 2 && f.bal != Side(f.dir) {
      var c;
      if f.other.bal == Side(f.dir) {
        NephewUpSides(f);
        c := NephewUp(f, End);
      } else {
        SiblingUpSides(f);
        c := SiblingUp(f, End);
      }
      Assoc(Before(c.f), Before(c.rest.f), LeftOf(r));
      Assoc(RightOf(r), After(c.rest.f), After(c.f));
    }
  }

  lemma FixStep<T>(f: Frame<T>, rest: Path<T>, h: nat)
    requires h >= 1 && PathOk(Go(f, rest), h) && Repairable(f) && AllRepairable(rest)
    requires PathOk(FixPath(rest), h - 1) && PathHeight(FixPath(rest), h - 1) == PathHeight(rest, h) - 1
    ensures PathOk(FixFrame(f, FixPath(rest)), h - 1)
    ensures PathHeight(FixFrame(f, FixPath(rest)), h - 1)
            == if Absorbs(f) then PathHeight(Go(f, rest), h) else PathHeight(Go(f, rest), h) - 1
  {
    var r := FixPath(rest);
    assert PathHeight(rest, h) == PathHeight(r, h - 1) + 1;
    FixFrameOk(f, r, h - 1);
  }

  /** Repairing every ancestor of a path on which nobody absorbs the loss: the whole path loses one level. */
  lemma {:induction false} FixPathOk<T>(p: Path<T>, h: nat)
    requires PathOk(p, h) && h >= 1 && AllRepairable(p) && NoneAbsorbs(p)
    ensures PathOk(FixPath(p), h - 1) && PathHeight(FixPath(p), h - 1) == PathHeight(p, h) - 1
  {
    if p.Go? {
      FixPathOk(p.rest, h);
      FixStep(p.f, p.rest, h);
    }
  }

  lemma {:induction false} FixPathSides<T>(p: Path<T>)
    requires AllRepairable(p)
    ensures LeftOf(FixPath(p)) == LeftOf(p) && RightOf(FixPath(p)) == RightOf(p)
  {
    if p.Go? {
      FixPathSides(p.rest);
      FixFrameSides(p.f, FixPath(p.rest));
    }
  }

  /** Starting at the last ancestor that absorbs the loss is enough: the tree above it need not change. */
  lemma RemovePathOk<T>(above: Path<T>, below: Path<T>, h: nat)
    requires PathOk(Cat(above, below), h) && h >= 1 && AllRepairable(below)
    requires below.Go? ==> NoneAbsorbs(below.rest)
    requires (below.Go? && Absorbs(below.f)) || (above.End? && NoneAbsorbs(below))
    ensures PathOk(Cat(above, FixPath(below)), h - 1)
    ensures LeftOf(Cat(above, FixPath(below))) == LeftOf(Cat(above, below))
    ensures RightOf(Cat(above, FixPath(below))) == RightOf(Cat(above, below))
  {
    PathCat(above, below, h);
    PathCat(above, FixPath(below), h - 1);
    FixPathSides(below);
    SidesCat(above, below);
    SidesCat(above, FixPath(below));
    if below.Go? && Absorbs(below.f) {
      FixPathOk(below.rest, h);
      FixStep(below.f, below.rest, h);
    } else {
      FixPathOk(below, h);
    }
  }
}
