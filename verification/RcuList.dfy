/** The callback lists of include/rcu.hpp: elements carry one link, which also tells whether an element is in some list.
    Waiting lists are open at the end; appending closes them to circles. */
module RcuLists {
  import opened Options
  import opened Lists

  /** The link of an element: null, the mark of the last element of a waiting list, or another element. */
  datatype Link = Unused | InUse | To(e: nat)

  type Mem = map<nat, Link>

  function At(m: Mem, e: nat): Link { if e in m then m[e] else Unused }

  /** Where `tail` points: to the head pointer of the list or to the link of an element. */
  datatype Tail = OfHead | Of(e: nat)

  datatype List = List(head: Option<nat>, tail: Tail, count: nat)

  function Cleared(): List { List(None, OfHead, 0) }

  /** Rcu_list::empty */
  predicate IsEmpty(q: List) { q.tail.OfHead? || q.head.None? }

  function First(l: seq<nat>): Option<nat> { if l == [] then None else Some(l[0]) }

  function Last(l: seq<nat>): Tail { if l == [] then OfHead else Of(l[|l| - 1]) }

  predicate Linked(m: Mem, l: seq<nat>) { forall t | 0 <= t < |l| - 1 :: At(m, l[t]) == To(l[t + 1]) }

  predicate Holds(m: Mem, q: List, l: seq<nat>) {
    q.head == First(l) && q.tail == Last(l) && Distinct(l) && Linked(m, l)
  }

  /** A waiting list: its last element carries the mark, or points to itself after it was enqueued once more. */
  predicate Waiting(m: Mem, q: List, l: seq<nat>) {
    Holds(m, q, l) && (l != [] ==> At(m, l[|l| - 1]) == InUse || At(m, l[|l| - 1]) == To(l[|l| - 1]))
  }

  /** A list that was appended to: a circle. */
  predicate Circular(m: Mem, q: List, l: seq<nat>) { Holds(m, q, l) && (l != [] ==> At(m, l[|l| - 1]) == To(l[0])) }

  // ----- Rcu_list::enqueue

  predicate Refuses(m: Mem, q: List, e: nat) { At(m, e).To? || (At(m, e).InUse? && q.tail != Of(e)) }

  function EnqueuedMem(m: Mem, q: List, e: nat): Mem {
    var n := if At(m, e).Unused? then m[e := InUse] else m;
    if q.tail.OfHead? then n else n[q.tail.e := To(e)]
  }

  function EnqueuedList(q: List, e: nat): List {
    List(if q.tail.OfHead? then Some(e) else q.head, Of(e), q.count + 1)
  }

  /** An unused element goes to the end. */
  lemma EnqueueNew(m: Mem, q: List, l: seq<nat>, e: nat)
    requires Waiting(m, q, l) && At(m, e) == Unused && (forall x | x in l :: At(m, x) != Unused)
    ensures !Refuses(m, q, e) && Waiting(EnqueuedMem(m, q, e), EnqueuedList(q, e), l + [e])
  {
    var n, k := EnqueuedMem(m, q, e), l + [e];
    assert e !in l;
    forall t | 0 <= t < |k| - 1 ensures At(n, k[t]) == To(k[t + 1]) {
      if t < |l| - 1 { assert k[t] == l[t] && k[t + 1] == l[t + 1] && l[t] != l[|l| - 1]; }
    }
  }

  /** An element of some list is refused, except that the last one of this list is accepted again without effect on the
      order. */
  lemma EnqueueOld(m: Mem, q: List, l: seq<nat>, e: nat)
    requires Waiting(m, q, l) && At(m, e) != Unused && !Refuses(m, q, e)
    ensures l != [] && e == l[|l| - 1] && Waiting(EnqueuedMem(m, q, e), EnqueuedList(q, e), l)
  {
    var n := EnqueuedMem(m, q, e);
    forall t | 0 <= t < |l| - 1 ensures At(n, l[t]) == To(l[t + 1]) {
      assert l[t] != l[|l| - 1];
    }
  }

  lemma EnqueueFrame(m: Mem, q: List, l: seq<nat>, e: nat, x: nat)
    requires Holds(m, q, l) && x != e && x !in l
    ensures At(EnqueuedMem(m, q, e), x) == At(m, x)
  {
  }

  // ----- Rcu_list::append

  predicate Frame(m: Mem, n: Mem, l: seq<nat>) { forall x | x in l :: At(n, x) == At(m, x) }

  function AppendedMem(m: Mem, q: List, r: List): Mem
    requires r.head.Some? && r.tail.Of? && (q.tail.Of? ==> q.head.Some?)
  {
    var n := if q.tail.OfHead? then m else m[q.tail.e := To(r.head.value)];
    var h := if q.tail.OfHead? then r.head.value else q.head.value;
    n[r.tail.e := To(h)]
  }

  function AppendedList(q: List, r: List): List {
    List(if q.tail.OfHead? then r.head else q.head, r.tail, q.count + r.count)
  }

  predicate Apart(l: seq<nat>, k: seq<nat>) { forall x | x in l :: x !in k }

  /** Appending concatenates and closes the circle. */
  lemma AppendCloses(m: Mem, q: List, l: seq<nat>, r: List, k: seq<nat>)
    requires Circular(m, q, l) && Holds(m, r, k) && k != [] && Apart(l, k)
    ensures Circular(AppendedMem(m, q, r), AppendedList(q, r), l + k)
  {
    var n, j := AppendedMem(m, q, r), l + k;
    forall t | 0 <= t < |j| - 1 ensures At(n, j[t]) == To(j[t + 1]) {
      if t < |l| {
        assert j[t] == l[t] && l[t] in l && k[|k| - 1] in k;
        if t < |l| - 1 { assert j[t + 1] == l[t + 1] && l[t] != l[|l| - 1]; } else { assert j[t + 1] == k[0]; }
      } else {
        var u := t - |l|;
        assert j[t] == k[u] && j[t + 1] == k[u + 1] && k[u] in k && k[u] != k[|k| - 1];
        if l != [] { assert l[|l| - 1] in l; }
      }
    }
    AppendDistinct(l, k);
    assert j[|j| - 1] == k[|k| - 1] && j[0] == if l == [] then k[0] else l[0];
  }

  lemma AppendFrame(m: Mem, q: List, l: seq<nat>, r: List, k: seq<nat>, o: seq<nat>)
    requires Holds(m, q, l) && Holds(m, r, k) && k != [] && Apart(o, l) && Apart(o, k)
    ensures Frame(m, AppendedMem(m, q, r), o)
  {
    assert k[|k| - 1] in k && (l != [] ==> l[|l| - 1] in l);
  }

  lemma AppendDistinct(l: seq<nat>, k: seq<nat>)
    requires Distinct(l) && Distinct(k) && Apart(l, k)
    ensures Distinct(l + k)
  {
    var j := l + k;
    forall a, b | 0 <= a < b < |j| ensures j[a] != j[b] {
      if a < |l| && b >= |l| { assert j[a] in l && j[b] in k; }
    }
  }

  // ----- the three lists of a CPU

  lemma HoldsFrame(m: Mem, n: Mem, q: List, l: seq<nat>)
    requires Holds(m, q, l) && Frame(m, n, l)
    ensures Holds(n, q, l) && (Circular(m, q, l) ==> Circular(n, q, l)) && (Waiting(m, q, l) ==> Waiting(n, q, l))
  {
    forall t | 0 <= t < |l| - 1 ensures At(n, l[t]) == To(l[t + 1]) {
      assert l[t] in l;
    }
    if l != [] { assert l[|l| - 1] in l; }
  }

  /** The links hold three lists without common elements, and tell exactly which elements are in one of them. */
  ghost predicate Sound(m: Mem, next: List, curr: List, done: List, w: seq<nat>, c: seq<nat>, f: seq<nat>) {
    && Waiting(m, next, w) && Circular(m, curr, c) && Circular(m, done, f)
    && Apart(w, c) && Apart(w, f) && Apart(c, f)
    && (forall e: nat :: At(m, e) == Unused <==> e !in w && e !in c && e !in f)
  }

  lemma CallNew(m: Mem, next: List, curr: List, done: List, w: seq<nat>, c: seq<nat>, f: seq<nat>, e: nat)
    requires Sound(m, next, curr, done, w, c, f) && At(m, e) == Unused
    ensures !Refuses(m, next, e)
    ensures Sound(EnqueuedMem(m, next, e), EnqueuedList(next, e), curr, done, w + [e], c, f)
  {
    var n := EnqueuedMem(m, next, e);
    EnqueueNew(m, next, w, e);
    forall x | x != e && x !in w ensures At(n, x) == At(m, x) {
      EnqueueFrame(m, next, w, e, x);
    }
    HoldsFrame(m, n, curr, c);
    HoldsFrame(m, n, done, f);
  }

  lemma CallOld(m: Mem, next: List, curr: List, done: List, w: seq<nat>, c: seq<nat>, f: seq<nat>, e: nat)
    requires Sound(m, next, curr, done, w, c, f) && At(m, e) != Unused && !Refuses(m, next, e)
    ensures e in w && Sound(EnqueuedMem(m, next, e), EnqueuedList(next, e), curr, done, w, c, f)
  {
    var n := EnqueuedMem(m, next, e);
    EnqueueOld(m, next, w, e);
    forall x | x != e && x !in w ensures At(n, x) == At(m, x) {
      EnqueueFrame(m, next, w, e, x);
    }
    HoldsFrame(m, n, curr, c);
    HoldsFrame(m, n, done, f);
  }

  class Queues {
    var mem: Mem
    var next: List
    var curr: List
    var done: List
    ghost var waiting: seq<nat>
    ghost var current: seq<nat>
    ghost var finished: seq<nat>

    ghost predicate Valid()
      reads this
    {
      Sound(mem, next, curr, done, waiting, current, finished)
    }

    constructor ()
      ensures Valid() && waiting == [] && current == [] && finished == []
    {
      mem, next, curr, done := map[], Cleared(), Cleared(), Cleared();
      waiting, current, finished := [], [], [];
    }

    /** The last waiting element has been accepted a second time. */
    ghost predicate Again()
      reads this
    {
      waiting != [] && At(mem, waiting[|waiting| - 1]) == To(waiting[|waiting| - 1])
    }

    /** The list part of Rcu::call: an element that is in no list is queued, any other is not queued again. The last
        waiting element is accepted once more all the same; the count is that of the accepted ones. */
    method Call(e: nat) returns (ok: bool)
      requires Valid()
      modifies this`mem, this`next, this`waiting
      ensures Valid()
      ensures e !in old(waiting) && e !in current && e !in finished ==> ok && waiting == old(waiting) + [e]
      ensures e in old(waiting) || e in current || e in finished ==>
                && waiting == old(waiting)
                && (ok <==> e in waiting && e == waiting[|waiting| - 1] && !old(Again()))
      ensures Again() <==> if ok then waiting == old(waiting) else old(Again())
      ensures next.count == old(next.count) + if ok then 1 else 0
    {
      if Refuses(mem, next, e) { return false; }
      var isNew := At(mem, e).Unused?;
      if isNew {
        CallNew(mem, next, curr, done, waiting, current, finished, e);
        waiting := waiting + [e];
      } else {
        CallOld(mem, next, curr, done, waiting, current, finished, e);
      }
      mem := EnqueuedMem(mem, next, e);
      next := EnqueuedList(next, e);
      return true;
    }

    /** The last element of a nonempty list is where its tail is. */
    lemma NotEmpty(q: List, l: seq<nat>)
      requires Holds(mem, q, l)
      ensures IsEmpty(q) <==> l == []
      ensures l != [] ==> q.head == Some(l[0]) && q.tail == Of(l[|l| - 1]) && l[|l| - 1] in l && l[0] in l
    {
    }

    /** The steps of Rcu::update that move a whole list on: `curr` to the end of `done`, `next` to an empty `curr`. */
    method Complete()
      requires Valid() && current != []
      modifies this
      ensures Valid() && finished == old(finished) + old(current) && current == [] && waiting == old(waiting)
      ensures done.count == old(done.count) + old(curr.count) && curr.count == 0 && next == old(next)
    {
      NotEmpty(curr, current);
      NotEmpty(done, finished);
      AppendCloses(mem, done, finished, curr, current);
      var n := AppendedMem(mem, done, curr);
      HoldsFrame(mem, n, next, waiting) by { AppendFrame(mem, done, finished, curr, current, waiting); }
      done := AppendedList(done, curr);
      curr := Cleared();
      mem := n;
      finished, current := finished + current, [];
    }

    method Promote()
      requires Valid() && current == [] && waiting != []
      modifies this
      ensures Valid() && current == old(waiting) && waiting == [] && finished == old(finished)
      ensures curr.count == old(curr.count) + old(next.count) && next.count == 0 && done == old(done)
    {
      NotEmpty(curr, current);
      NotEmpty(next, waiting);
      AppendCloses(mem, curr, current, next, waiting);
      var n := AppendedMem(mem, curr, next);
      HoldsFrame(mem, n, done, finished) by { AppendFrame(mem, curr, current, next, waiting, finished); }
      curr := AppendedList(curr, next);
      next := Cleared();
      mem := n;
      assert current + waiting == waiting;
      current, waiting := waiting, [];
    }

    /** Rcu::invoke_batch visits every finished element once, in order, and leaves it unused before its callback runs;
        the callbacks themselves are left out. */
    method Invoke() returns (visited: seq<nat>)
      requires Valid() && finished != []
      modifies this`mem, this`done, this`finished
      ensures Valid() && visited == old(finished) && finished == [] && done.count == 0
    {
      NotEmpty(done, finished);
      var e := done.head.value;
      var n: Option<nat> := None;
      ghost var l, m := finished, mem;
      visited := [];
      while n != done.head
        invariant |visited| <= |l| && visited == l[..|visited|] && done == old(done)
        invariant forall x :: At(mem, x) == if x in visited then Unused else At(m, x)
        invariant n == done.head <==> |visited| == |l|
        invariant |visited| < |l| ==> e == l[|visited|]
        decreases |l| - |visited|
      {
        var k := |visited|;
        assert e !in visited;
        assert At(mem, e) == To(if k + 1 < |l| then l[k + 1] else l[0]);
        n := Some(At(mem, e).e);
        mem := mem[e := Unused];
        visited := visited + [e];
        e := n.value;
      }
      done := Cleared();
      finished := [];
      assert visited == l;
      HoldsFrame(m, mem, next, waiting);
      HoldsFrame(m, mem, curr, current);
    }
  }
}
