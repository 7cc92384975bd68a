/** The derivation lists of the mapping database (include/mdb.hpp, src/mdb.cpp): every derivation tree is
    threaded through a circular list in preorder, with depths. */
module Derivation {
  import opened Lists

  type Id = nat

  /** The constant fields of a node. */
  datatype Info = Info(space: nat, phys: nat, base: nat, order: nat, dpth: nat)

  /** The fields that link and describe nodes. A root has no parent. */
  datatype Links = Links(info: map<Id, Info>, prnt: map<Id, Id>, next: map<Id, Id>, prev: map<Id, Id>)

  /** The fields of a node; a node that was never created reads as unlinked. */
  function Depth(s: Links, n: Id): nat { if n in s.info then s.info[n].dpth else 0 }

  function Next(s: Links, n: Id): Id { if n in s.next then s.next[n] else n }

  function Prev(s: Links, n: Id): Id { if n in s.prev then s.prev[n] else n }

  /** l[j] is the parent of l[i]: one level up, with only deeper or equally deep nodes in between. */
  ghost predicate IsParent(s: Links, l: seq<Id>, j: int, i: int)
  {
    && 0 <= j < i < |l|
    && l[i] in s.prnt && s.prnt[l[i]] == l[j] && Depth(s, l[i]) == Depth(s, l[j]) + 1
    && forall m :: j < m < i ==> Depth(s, l[m]) >= Depth(s, l[i])
  }

  /** The neighbours of position i on a circle of n. */
  ghost predicate Linked(s: Links, l: seq<Id>, i: int)
    requires 0 <= i < |l|
  {
    l[i] in s.info && Next(s, l[i]) == l[Up(|l|, i)] && Prev(s, l[i]) == l[Down(|l|, i)]
  }

  /** The nodes l, chained in a circle in this order. */
  ghost predicate Circle(s: Links, l: seq<Id>) {
    Distinct(l) && forall i :: 0 <= i < |l| ==> Linked(s, l, i)
  }

  /** l is the preorder of a derivation tree with root l[0]. */
  ghost predicate Preorder(s: Links, l: seq<Id>)
  {
    && l != [] && l[0] !in s.prnt && Depth(s, l[0]) == 0
    && forall i :: 0 < i < |l| ==> HasParent(s, l, i)
  }

  ghost predicate HasParent(s: Links, l: seq<Id>, i: int) { exists j :: IsParent(s, l, j, i) }

  /** What never changes about a node once it is in the database. */
  datatype Kin = Kin(info: map<Id, Info>, prnt: map<Id, Id>)

  function KinOf(s: Links): Kin { Kin(s.info, s.prnt) }

  /** n has a parent, one or more levels up. */
  predicate HasUp(k: Kin, n: Id) {
    n in k.prnt && n in k.info && k.prnt[n] in k.info && k.info[k.prnt[n]].dpth < k.info[n].dpth
  }

  function Rank(k: Kin, n: Id): nat { if n in k.info then k.info[n].dpth else 0 }

  /** n is a or derived from it, following parent links. */
  ghost predicate Derived(k: Kin, a: Id, n: Id)
    decreases Rank(k, n)
  {
    n == a || (HasUp(k, n) && Derived(k, a, k.prnt[n]))
  }

  // ----- insertion behind the parent (Mdb::insert_node)

  function Inserted(l: seq<Id>, k: nat, n: Id): seq<Id>
    requires k < |l|
  {
    l[..k + 1] + [n] + l[k + 1..]
  }

  function LinkAfter(s: Links, p: Id, n: Id, info: Info): Links
  {
    var q := Next(s, p);
    Links(s.info[n := info], s.prnt[n := p], s.next[n := q][p := n], s.prev[n := p][q := n])
  }

  lemma InsertedDistinct(l: seq<Id>, k: nat, n: Id)
    requires Distinct(l) && k < |l| && n !in l
    ensures Distinct(Inserted(l, k, n))
  {
    var l' := Inserted(l, k, n);
    forall i, j | 0 <= i < j < |l'|
      ensures l'[i] != l'[j]
    {
      var oi, oj := if i <= k then i else i - 1, if j <= k then j else j - 1;
      assert i != k + 1 ==> l'[i] == l[oi];
      assert j != k + 1 ==> l'[j] == l[oj];
    }
  }

  lemma InsertedLink(s: Links, l: seq<Id>, k: nat, n: Id, info: Info, i: nat)
    requires Circle(s, l) && k < |l| && n !in l && i <= |l|
    ensures Linked(LinkAfter(s, l[k], n, info), Inserted(l, k, n), i)
  {
    assert Linked(s, l, k);
    if i != k + 1 {
      var o, c := if i <= k then i else i - 1, Up(|l|, k);
      assert Inserted(l, k, n)[i] == l[o];
      assert Linked(s, l, o);
      assert o != k ==> l[o] != l[k];
      assert o != c ==> l[o] != l[c];
    }
  }

  lemma InsertedCircle(s: Links, l: seq<Id>, k: nat, n: Id, info: Info)
    requires Circle(s, l) && k < |l| && n !in l
    ensures Circle(LinkAfter(s, l[k], n, info), Inserted(l, k, n))
  {
    InsertedDistinct(l, k, n);
    forall i | 0 <= i <= |l|
      ensures Linked(LinkAfter(s, l[k], n, info), Inserted(l, k, n), i)
    { InsertedLink(s, l, k, n, info, i); }
  }

  lemma InsertedParent(s: Links, l: seq<Id>, k: nat, n: Id, info: Info, j: int, o: nat)
    requires Circle(s, l) && k < |l| && n !in l && info.dpth == Depth(s, l[k]) + 1 && IsParent(s, l, j, o)
    ensures IsParent(LinkAfter(s, l[k], n, info), Inserted(l, k, n),
                     if j <= k then j else j + 1, if o <= k then o else o + 1)
  {
    var s', l' := LinkAfter(s, l[k], n, info), Inserted(l, k, n);
    var j', i := if j <= k then j else j + 1, if o <= k then o else o + 1;
    assert l'[i] == l[o] && l'[j'] == l[j];
    forall m | j' < m < i
      ensures Depth(s', l'[m]) >= Depth(s', l'[i])
    {
      if m != k + 1 {
        var om := if m <= k then m else m - 1;
        assert l'[m] == l[om] && Depth(s, l[om]) >= Depth(s, l[o]);
      } else if j != k {
        assert Depth(s, l[k]) >= Depth(s, l[o]);
      }
    }
  }

  /** A new node directly behind its parent, one level deeper, keeps the preorder. */
  lemma InsertedPreorder(s: Links, l: seq<Id>, k: nat, n: Id, info: Info)
    requires Circle(s, l) && Preorder(s, l) && k < |l| && n !in l && info.dpth == Depth(s, l[k]) + 1
    ensures Circle(LinkAfter(s, l[k], n, info), Inserted(l, k, n))
    ensures Preorder(LinkAfter(s, l[k], n, info), Inserted(l, k, n))
  {
    InsertedCircle(s, l, k, n, info);
    var s', l' := LinkAfter(s, l[k], n, info), Inserted(l, k, n);
    forall i | 0 < i < |l'|
      ensures HasParent(s', l', i)
    {
      if i == k + 1 {
        assert IsParent(s', l', k, i);
      } else {
        var o := if i <= k then i else i - 1;
        assert HasParent(s, l, o);
        var j :| IsParent(s, l, j, o);
        InsertedParent(s, l, k, n, info, j, o);
      }
    }
  }

  // ----- removal of a leaf (Mdb::remove_node)

  function Unlink(s: Links, n: Id): Links
  {
    s.(prev := s.prev[Next(s, n) := Prev(s, n)], next := s.next[Prev(s, n) := Next(s, n)])
  }

  lemma WithoutLink(s: Links, l: seq<Id>, k: nat, i: nat)
    requires Circle(s, l) && k < |l| && i < |l| - 1
    ensures Linked(Unlink(s, l[k]), Dropped(l, k), i)
  {
    var a, b, o := Up(|l|, k), Down(|l|, k), if i < k then i else i + 1;
    assert Linked(s, l, k) && Linked(s, l, o);
    assert Dropped(l, k)[i] == l[o];
    assert o != a ==> l[o] != l[a];
    assert o != b ==> l[o] != l[b];
  }

  lemma WithoutCircle(s: Links, l: seq<Id>, k: nat)
    requires Circle(s, l) && k < |l|
    ensures Circle(Unlink(s, l[k]), Dropped(l, k))
  {
    DroppedMembers(l, k);
    forall i | 0 <= i < |l| - 1
      ensures Linked(Unlink(s, l[k]), Dropped(l, k), i)
    { WithoutLink(s, l, k, i); }
  }

  lemma ParentIsInner(s: Links, l: seq<Id>, j: int, i: int)
    requires IsParent(s, l, j, i)
    ensures Depth(s, l[j + 1]) > Depth(s, l[j])
  {
    if j + 1 < i { assert Depth(s, l[j + 1]) >= Depth(s, l[i]); }
  }

  lemma WithoutParent(s: Links, l: seq<Id>, k: nat, j: int, o: nat)
    requires k < |l| && j != k && o != k && IsParent(s, l, j, o)
    ensures IsParent(Unlink(s, l[k]), Dropped(l, k), if j < k then j else j - 1, if o < k then o else o - 1)
  {
    var s', l' := Unlink(s, l[k]), Dropped(l, k);
    var j', i := if j < k then j else j - 1, if o < k then o else o - 1;
    assert l'[i] == l[o] && l'[j'] == l[j];
    forall m | j' < m < i
      ensures Depth(s', l'[m]) >= Depth(s', l'[i])
    {
      var om := if m < k then m else m + 1;
      assert l'[m] == l[om] && Depth(s, l[om]) >= Depth(s, l[o]);
    }
  }

  /** Removing a node without children keeps the preorder. */
  lemma WithoutPreorder(s: Links, l: seq<Id>, k: nat)
    requires Circle(s, l) && Preorder(s, l) && 0 < k < |l|
    requires k + 1 < |l| ==> Depth(s, l[k + 1]) <= Depth(s, l[k])
    ensures Circle(Unlink(s, l[k]), Dropped(l, k)) && Preorder(Unlink(s, l[k]), Dropped(l, k))
  {
    WithoutCircle(s, l, k);
    forall i | 0 < i < |l| - 1
      ensures HasParent(Unlink(s, l[k]), Dropped(l, k), i)
    {
      var o := if i < k then i else i + 1;
      assert HasParent(s, l, o);
      var j :| IsParent(s, l, j, o);
      ParentIsInner(s, l, j, o);
      WithoutParent(s, l, k, j, o);
    }
  }

  // ----- the run of deeper nodes behind a node is its subtree

  /** From index i on to k the list stays deeper than l[i]. */
  ghost predicate Run(s: Links, l: seq<Id>, i: int, k: int)
  {
    0 <= i <= k < |l| && forall m :: i < m <= k ==> Depth(s, l[m]) > Depth(s, l[i])
  }

  lemma {:induction false} RunIsDerived(s: Links, l: seq<Id>, i: nat, k: nat)
    requires Circle(s, l) && Preorder(s, l) && i < |l| && k < |l|
    ensures Run(s, l, i, k) <==> Derived(KinOf(s), l[i], l[k])
    decreases k
  {
    assert Linked(s, l, k);
    if k != i {
      assert l[k] != l[i] by { if k < i { assert l[k] != l[i]; } else { assert l[i] != l[k]; } }
      if k > 0 {
        assert HasParent(s, l, k);
        var j :| IsParent(s, l, j, k);
        assert Linked(s, l, j);
        RunIsDerived(s, l, i, j);
        RunThroughParent(s, l, i, j, k);
      }
    }
  }

  /** A node is in the run of l[i] exactly when its parent is. */
  lemma RunThroughParent(s: Links, l: seq<Id>, i: nat, j: int, k: nat)
    requires IsParent(s, l, j, k) && i != k && i < |l|
    ensures Run(s, l, i, k) <==> Run(s, l, i, j)
  {
    if j < i < k { assert Depth(s, l[i]) >= Depth(s, l[k]); }
    if Run(s, l, i, j) {
      assert j > i ==> Depth(s, l[j]) > Depth(s, l[i]);
      forall m | i < m <= k
        ensures Depth(s, l[m]) > Depth(s, l[i])
      { if j < m < k { assert Depth(s, l[m]) >= Depth(s, l[k]); } }
    }
  }

  // ----- depths are stored in 16 bits

  /** The depth Pd::delegate gives to a child (src/pd.cpp:93). */
  function ChildDepth(d: nat): nat { (d + 1) % 0x1_0000 }

  /** A child keeps the preorder exactly when its parent is not at the greatest depth. Below that depth the child's
      stored depth is 0: the walk over the parent's subtree stops in front of it, although it is derived from it. */
  lemma DepthLimit(s: Links, l: seq<Id>, k: nat, n: Id, info: Info)
    requires Circle(s, l) && Preorder(s, l) && k < |l| && n !in l && Depth(s, l[k]) < 0x1_0000
    requires info.dpth == ChildDepth(Depth(s, l[k]))
    ensures Preorder(LinkAfter(s, l[k], n, info), Inserted(l, k, n)) <==> Depth(s, l[k]) < 0xffff
    ensures Run(LinkAfter(s, l[k], n, info), Inserted(l, k, n), k, k + 1) <==> Depth(s, l[k]) < 0xffff
  {
    var s', l' := LinkAfter(s, l[k], n, info), Inserted(l, k, n);
    assert l'[k] == l[k] && l'[k + 1] == n && l'[0] == l[0];
    if Depth(s, l[k]) < 0xffff {
      InsertedPreorder(s, l, k, n, info);
    } else {
      assert Depth(s', n) == 0;
      assert !HasParent(s', l', k + 1);
    }
  }

  /** A chain of n delegations, each from the node before. */
  function DeepLinks(n: nat): Links {
    Links(map i: nat | 0 <= i < n :: Info(0, 0, i, 0, i), map i: nat | 0 < i < n :: Down(n, i),
          map i: nat | 0 <= i < n :: Up(n, i), map i: nat | 0 <= i < n :: Down(n, i))
  }

  function DeepList(n: nat): seq<Id> { seq(n, i => i) }

  lemma DeepChain(n: nat)
    requires n >= 1
    ensures Circle(DeepLinks(n), DeepList(n)) && Preorder(DeepLinks(n), DeepList(n))
    ensures Depth(DeepLinks(n), DeepList(n)[n - 1]) == n - 1
  {
    forall i | 0 < i < n
      ensures HasParent(DeepLinks(n), DeepList(n), i)
    { assert IsParent(DeepLinks(n), DeepList(n), i - 1, i); }
  }

  /** The limit is reached: a chain of 0x1_0000 nodes is well formed, one delegation more breaks it. */
  lemma DepthOverflow()
    ensures var s, l, n := DeepLinks(0x1_0000), DeepList(0x1_0000), 0x1_0000;
            var s', l' := LinkAfter(s, l[n - 1], n, Info(0, 0, n, 0, ChildDepth(n - 1))), Inserted(l, n - 1, n);
            && Circle(s, l) && Preorder(s, l) && !Preorder(s', l') && s'.prnt[n] == l[n - 1]
            && !Run(s', l', n - 1, n)
  {
    var s, l, n := DeepLinks(0x1_0000), DeepList(0x1_0000), 0x1_0000;
    DeepChain(n);
    DepthLimit(s, l, n - 1, n, Info(0, 0, n, 0, ChildDepth(n - 1)));
  }
}
