/** The ready queue of one CPU (src/sc.cpp): for each priority a circular list of scheduling contexts. */
module ReadyQueue {
  import opened Options
  import opened Lists
  import Bits

  /** A scheduling context: links (null while it is not queued), priority, remaining time and full budget. */
  datatype Sc = Sc(prev: Option<nat>, next: Option<nat>, prio: nat, left: nat, budget: nat)

  type Mem = map<nat, Sc>

  // ----- circular lists

  predicate Linked(m: Mem, l: seq<nat>, t: int)
    requires 0 <= t < |l|
  {
    l[t] in m && m[l[t]].next == Some(l[Up(|l|, t)]) && m[l[t]].prev == Some(l[Down(|l|, t)])
  }

  predicate Circle(m: Mem, l: seq<nat>) { Distinct(l) && forall t | 0 <= t < |l| :: Linked(m, l, t) }

  function First(l: seq<nat>): Option<nat> { if l == [] then None else Some(l[0]) }

  /** Links of queue members other than those of l are as before, and no other field has changed. */
  predicate OnlyLinks(m: Mem, n: Mem, l: seq<nat>) {
    && n.Keys == m.Keys
    && (forall x | x in m :: n[x].prio == m[x].prio && n[x].left == m[x].left && n[x].budget == m[x].budget)
    && (forall x | x in m && x !in l :: n[x] == m[x])
  }

  /** The first context of a priority: `list[prio] = prev = next = this` */
  function Alone(m: Mem, x: nat): Mem
    requires x in m
  {
    m[x := m[x].(prev := Some(x), next := Some(x))]
  }

  /** `next = list[prio]; prev = list[prio]->prev; next->prev = prev->next = this` */
  function Joined(m: Mem, h: nat, x: nat): Mem
    requires x in m && h in m && m[h].prev.Some? && m[h].prev.value in m
  {
    var p := m[h].prev.value;
    var n := m[x := m[x].(next := Some(h), prev := Some(p))];
    var o := n[p := n[p].(next := Some(x))];
    o[h := o[h].(prev := Some(x))]
  }

  /** `next->prev = prev; prev->next = next; prev = next = nullptr` */
  function Left(m: Mem, x: nat): Mem
    requires x in m && m[x].prev.Some? && m[x].next.Some? && m[x].prev.value in m && m[x].next.value in m
  {
    var p, f := m[x].prev.value, m[x].next.value;
    var n := m[f := m[f].(prev := Some(p))];
    var o := n[p := n[p].(next := Some(f))];
    o[x := o[x].(prev := None, next := None)]
  }

  lemma AloneCircle(m: Mem, x: nat)
    requires x in m
    ensures Circle(Alone(m, x), [x]) && OnlyLinks(m, Alone(m, x), [x])
  {
    assert Linked(Alone(m, x), [x], 0);
  }

  lemma Head(m: Mem, l: seq<nat>)
    requires Circle(m, l) && l != []
    ensures l[0] in m && m[l[0]].prev == Some(l[|l| - 1]) && l[|l| - 1] in m
  {
    assert Linked(m, l, 0) && Linked(m, l, |l| - 1);
  }

  lemma JoinedLinked(m: Mem, l: seq<nat>, x: nat, t: nat)
    requires Circle(m, l) && l != [] && x in m && x !in l && t <= |l|
    requires l[0] in m && m[l[0]].prev == Some(l[|l| - 1]) && l[|l| - 1] in m
    ensures Linked(Joined(m, l[0], x), l + [x], t)
  {
    if t < |l| { assert Linked(m, l, t) && (l + [x])[t] == l[t]; }
  }

  /** Joining before the head is joining at the end. */
  lemma JoinedCircle(m: Mem, l: seq<nat>, x: nat)
    requires Circle(m, l) && l != [] && x in m && x !in l
    ensures l[0] in m && m[l[0]].prev.Some? && m[l[0]].prev.value in m
    ensures Circle(Joined(m, l[0], x), l + [x]) && OnlyLinks(m, Joined(m, l[0], x), l + [x])
  {
    Head(m, l);
    var n, k := Joined(m, l[0], x), l + [x];
    forall t: nat | t < |k| ensures Linked(n, k, t) {
      JoinedLinked(m, l, x, t);
    }
    assert l[0] in k && l[|l| - 1] in k && x in k by { assert k[0] == l[0] && k[|l| - 1] == l[|l| - 1] && k[|l|] == x; }
  }

  lemma Neighbours(m: Mem, l: seq<nat>, t: nat)
    requires Circle(m, l) && t < |l|
    ensures l[t] in m && m[l[t]].prev == Some(l[Down(|l|, t)]) && m[l[t]].next == Some(l[Up(|l|, t)])
    ensures l[Down(|l|, t)] in m && l[Up(|l|, t)] in m
  {
    assert Linked(m, l, t) && Linked(m, l, Down(|l|, t)) && Linked(m, l, Up(|l|, t));
  }

  lemma LeftLinked(m: Mem, l: seq<nat>, t: nat, s: nat)
    requires Circle(m, l) && t < |l| && s < |l| - 1
    requires l[t] in m && m[l[t]].prev == Some(l[Down(|l|, t)]) && m[l[t]].next == Some(l[Up(|l|, t)])
    requires l[Down(|l|, t)] in m && l[Up(|l|, t)] in m
    ensures Linked(Left(m, l[t]), Dropped(l, t), s)
  {
    var d, o := Dropped(l, t), if s < t then s else s + 1;
    assert d[s] == l[o] && l[o] != l[t] && Linked(m, l, o);
    var u, v := Up(|d|, s), Down(|d|, s);
    assert d[u] == l[if u < t then u else u + 1] && d[v] == l[if v < t then v else v + 1];
    assert l[o] == l[Up(|l|, t)] <==> o == Up(|l|, t);
    assert l[o] == l[Down(|l|, t)] <==> o == Down(|l|, t);
  }

  lemma LeftCircle(m: Mem, l: seq<nat>, t: nat)
    requires Circle(m, l) && t < |l|
    ensures l[t] in m && m[l[t]].prev.Some? && m[l[t]].next.Some? && m[l[t]].prev.value in m && m[l[t]].next.value in m
    ensures Circle(Left(m, l[t]), Dropped(l, t)) && OnlyLinks(m, Left(m, l[t]), l)
    ensures Left(m, l[t])[l[t]] == m[l[t]].(prev := None, next := None)
  {
    Neighbours(m, l, t);
    DroppedMembers(l, t);
    var n, d := Left(m, l[t]), Dropped(l, t);
    forall s: nat | s < |d| ensures Linked(n, d, s) {
      LeftLinked(m, l, t, s);
    }
    assert l[t] in l && l[Up(|l|, t)] in l && l[Down(|l|, t)] in l;
  }

  /** Making the last one the first one. */
  lemma Rotated(m: Mem, l: seq<nat>, x: nat)
    requires Circle(m, l + [x])
    ensures Circle(m, [x] + l)
  {
    var k, r := l + [x], [x] + l;
    forall t | 0 <= t < |r| ensures Linked(m, r, t) {
      var s := Down(|k|, t);
      assert r[t] == k[s] && Linked(m, k, s);
      assert r[Up(|r|, t)] == k[Up(|k|, s)] && r[Down(|r|, t)] == k[Down(|k|, s)];
    }
    assert Distinct(r) by {
      assert forall a | 0 <= a < |r| :: r[a] == k[Down(|k|, a)];
    }
  }

  lemma CircleFrame(m: Mem, n: Mem, l: seq<nat>)
    requires Circle(m, l) && forall x | x in l && x in m :: x in n && n[x].prev == m[x].prev && n[x].next == m[x].next
    ensures Circle(n, l)
  {
    forall t | 0 <= t < |l| ensures Linked(n, l, t) {
      assert Linked(m, l, t) && l[t] in l;
    }
  }

  // ----- all priorities

  predicate QueueOk(m: Mem, list: seq<Option<nat>>, qs: seq<seq<nat>>, p: nat) {
    && p < |qs| == |list| && list[p] == First(qs[p]) && Circle(m, qs[p])
    && forall x | x in qs[p] :: x in m && m[x].prio == p
  }

  /** A context is linked exactly when it is in the queue of its priority, or in a queue elsewhere. */
  predicate Placed(m: Mem, qs: seq<seq<nat>>, away: set<nat>, x: nat) {
    && x in m && m[x].prio < |qs|
    && if x in away then x !in qs[m[x].prio] else (m[x].prev.Some? <==> x in qs[m[x].prio])
  }

  ghost predicate Queues(m: Mem, list: seq<Option<nat>>, qs: seq<seq<nat>>, away: set<nat>) {
    && |list| == |qs| && (forall p: nat {:trigger QueueOk(m, list, qs, p)} | p < |qs| :: QueueOk(m, list, qs, p))
    && (forall x {:trigger Placed(m, qs, away, x)} | x in m :: Placed(m, qs, away, x))
  }

  /** `top` is the highest priority with someone in its queue, or 0. */
  predicate TopOk(qs: seq<seq<nat>>, top: nat) {
    top < |qs| && (forall p | top < p < |qs| :: qs[p] == []) && (top > 0 ==> qs[top] != [])
  }

  /** A change of queue p by links of its members keeps everything else. */
  lemma OneQueue(m: Mem, n: Mem, list: seq<Option<nat>>, qs: seq<seq<nat>>, away: set<nat>, p: nat, x: nat, k: seq<nat>)
    requires Queues(m, list, qs, away) && p < |qs| && x in m && m[x].prio == p && x !in away
    requires OnlyLinks(m, n, k + [x]) && (forall y | y in k :: y in qs[p] || y == x)
    requires Circle(n, k) && (forall y | y in qs[p] && y != x :: y in k && y in n && n[y].prev.Some?)
    requires n[x].prev.Some? <==> x in k
    ensures Queues(n, list[p := First(k)], qs[p := k], away)
  {
    var list', qs' := list[p := First(k)], qs[p := k];
    assert QueueOk(m, list, qs, p);
    forall r: nat | r < |qs'| ensures QueueOk(n, list', qs', r) {
      assert QueueOk(m, list, qs, r);
      if r != p {
        forall y | y in qs[r] ensures y in n && n[y] == m[y] {
          assert y !in k + [x];
        }
        CircleFrame(m, n, qs[r]);
      }
    }
    forall y | y in n ensures Placed(n, qs', away, y) {
      assert Placed(m, qs, away, y);
      if y !in k + [x] { assert n[y] == m[y]; }
    }
  }

  /** The memory and the queue after x has been queued; `first` puts it at the head. */
  function EnqueuedMem(m: Mem, h: Option<nat>, x: nat): Mem
    requires x in m && (h.Some? ==> h.value in m && m[h.value].prev.Some? && m[h.value].prev.value in m)
  {
    if h.None? then Alone(m, x) else Joined(m, h.value, x)
  }

  function WithSc(q: seq<nat>, x: nat, first: bool): seq<nat> { if first then [x] + q else q + [x] }

  // ----- taking turns

  /** The contexts of one priority in the order in which they run, after the first one has had its turn. */
  function NextInLine(l: seq<nat>): seq<nat>
    requires l != []
  {
    l[1..] + [l[0]]
  }

  function AfterTurns(l: seq<nat>, n: nat): (r: seq<nat>)
    requires l != []
    ensures |r| == |l|
  {
    if n == 0 then l else NextInLine(AfterTurns(l, n - 1))
  }

  /** Turn n is that of context n, counted round the line: everyone runs once before anyone runs again. */
  lemma {:induction false} TakeTurns(l: seq<nat>, n: nat, k: nat)
    requires l != [] && k < |l|
    ensures AfterTurns(l, n)[k] == l[(n + k) % |l|]
  {
    if n == 0 {
      WrapIndex(k, |l|);
    } else if k + 1 < |l| {
      TakeTurns(l, n - 1, k + 1);
    } else {
      TakeTurns(l, n - 1, 0);
      WrapIndex(n - 1, |l|);
    }
  }

  lemma WrapIndex(a: nat, m: nat)
    requires m > 0
    ensures (a + m) % m == a % m && (a < m ==> a % m == a)
  {
    Bits.DivBounds(a, m);
    Bits.DivBounds(a + m, m);
    Bits.DivUnique(a + m, m, a / m + 1);
    if a < m { Bits.DivUnique(a, m, 0); }
  }

  /** The one who runs, put back into its queue, and the first of that queue: with time left it goes on, otherwise the
      next in line runs. */
  lemma NextRuns(q: seq<nat>, x: nat, first: bool)
    ensures var c := WithSc(q, x, first);
            c != [] && [c[0]] + c[1..] == if first then [x] + q else NextInLine([x] + q)
  {
  }

  /** What a schedule does to the line of the priority that runs. */
  lemma InTurn(qs: seq<seq<nat>>, pr: nat, x: nat, first: bool, p: nat, cur: nat, qs': seq<seq<nat>>)
    requires pr < |qs| && forall r | pr < r < |qs| :: qs[r] == []
    requires var c := qs[pr := WithSc(qs[pr], x, first)];
             && p < |c| && c[p] != [] && cur == c[p][0] && (forall r | p < r < |c| :: c[r] == [])
             && qs' == c[p := c[p][1..]]
    ensures [cur] + qs'[pr] == if first then [x] + qs[pr] else NextInLine([x] + qs[pr])
  {
    NextRuns(qs[pr], x, first);
    assert p == pr by {
      var c := qs[pr := WithSc(qs[pr], x, first)];
      assert c[pr] != [];
    }
  }

  lemma EnqueueQueues(m: Mem, list: seq<Option<nat>>, qs: seq<seq<nat>>, away: set<nat>, x: nat, first: bool)
    requires Queues(m, list, qs, away) && x in m && m[x].prio < |qs| && m[x].prev.None? && x !in away
    ensures var p := m[x].prio;
            && list[p] == First(qs[p])
            && (list[p].Some? ==> list[p].value in m && m[list[p].value].prev.Some? && m[list[p].value].prev.value in m)
            && var k := WithSc(qs[p], x, first);
               Queues(EnqueuedMem(m, list[p], x), list[p := First(k)], qs[p := k], away)
  {
    var p := m[x].prio;
    var q := qs[p];
    assert QueueOk(m, list, qs, p) && Placed(m, qs, away, x);
    var k := WithSc(q, x, first);
    if q == [] {
      AloneCircle(m, x);
      assert k == [x];
    } else {
      JoinedCircle(m, q, x);
      if first { Rotated(Joined(m, q[0], x), q, x); }
    }
    var n := EnqueuedMem(m, list[p], x);
    assert forall y :: y in q + [x] <==> y in k;
    forall y | y in k ensures n[y].prev.Some? {
      CircleMember(n, k, y);
    }
    OneQueue(m, n, list, qs, away, p, x, k);
  }

  lemma CircleMember(m: Mem, l: seq<nat>, x: nat)
    requires Circle(m, l) && x in l
    ensures x in m && m[x].prev.Some? && m[x].next.Some?
  {
    var t :| 0 <= t < |l| && l[t] == x;
    assert Linked(m, l, t);
  }

  lemma DequeueQueues(m: Mem, list: seq<Option<nat>>, qs: seq<seq<nat>>, away: set<nat>, x: nat, t: nat)
    requires Queues(m, list, qs, away) && x in m && m[x].prio < |qs| && t < |qs[m[x].prio]| && qs[m[x].prio][t] == x
    ensures m[x].prev.Some? && m[x].next.Some? && m[x].prev.value in m && m[x].next.value in m
    ensures var p := m[x].prio;
            var k := Dropped(qs[p], t);
            && list[p] == Some(qs[p][0])
            && First(k) == (if t > 0 then list[p] else if m[x].next == Some(x) then None else m[x].next)
            && Queues(Left(m, x), list[p := First(k)], qs[p := k], away)
  {
    var p := m[x].prio;
    var q := qs[p];
    assert QueueOk(m, list, qs, p);
    LeftCircle(m, q, t);
    Neighbours(m, q, t);
    DroppedMembers(q, t);
    var k, n := Dropped(q, t), Left(m, x);
    assert x in q && Placed(m, qs, away, x);
    forall y | y in k ensures n[y].prev.Some? {
      CircleMember(n, k, y);
    }
    assert forall y :: y in q <==> y in k + [x];
    OneQueue(m, n, list, qs, away, p, x, k);
    if t == 0 && |q| > 1 { assert q[0] != q[1]; }
  }

  /** The time of a context once it is queued: used-up time is renewed. */
  function Refilled(s: Sc): nat { if s.left == 0 then s.budget else s.left }

  /** Nothing but links has changed. */
  predicate SameTimes(m: Mem, n: Mem) {
    && n.Keys == m.Keys
    && forall x | x in m :: n[x].prio == m[x].prio && n[x].left == m[x].left && n[x].budget == m[x].budget
  }

  lemma SameAfterEnqueue(m: Mem, h: Option<nat>, x: nat)
    requires x in m && (h.Some? ==> h.value in m && m[h.value].prev.Some? && m[h.value].prev.value in m)
    ensures SameTimes(m, EnqueuedMem(m, h, x))
  {
  }

  lemma SameAfterDequeue(m: Mem, x: nat)
    requires x in m && m[x].prev.Some? && m[x].next.Some? && m[x].prev.value in m && m[x].next.value in m
    ensures SameTimes(m, Left(m, x)) && Left(m, x)[x].prev.None?
  {
  }

  lemma HeadTest(q: seq<nat>, t: nat, x: nat)
    requires Distinct(q) && t < |q| && q[t] == x
    ensures First(q) == Some(x) <==> t == 0
  {
  }

  class Scheduler {
    var scs: Mem
    var list: seq<Option<nat>>
    var top: nat
    var current: nat
    ghost var qs: seq<seq<nat>>
    ghost var away: set<nat>      // contexts in the wait queue of an execution context

    ghost predicate Valid()
      reads this
    {
      Queues(scs, list, qs, away) && TopOk(qs, top)
    }

    constructor (priorities: nat, idle: nat, budget: nat)
      requires priorities > 0
      ensures Valid() && current == idle && away == {} && scs == map[idle := Sc(None, None, 0, 0, budget)]
      ensures |qs| == priorities && forall p | 0 <= p < priorities :: qs[p] == []
    {
      scs := map[idle := Sc(None, None, 0, 0, budget)];
      list := seq(priorities, _ => None);
      top, current := 0, idle;
      qs := seq(priorities, _ => []);
      away := {};
    }

    /** Sc::ready_enqueue: to the end of the queue of its priority, or to its head with time left. */
    method Enqueue(x: nat, useLeft: bool)
      requires Valid() && x in scs && scs[x].prio < |qs| && scs[x].prev.None? && x !in away
      modifies this`scs, this`list, this`top, this`qs
      ensures Valid() && scs.Keys == old(scs).Keys
      ensures var p := old(scs)[x].prio;
              qs == old(qs)[p := WithSc(old(qs)[p], x, useLeft && old(scs)[x].left > 0)]
      ensures SameTimes(old(scs)[x := old(scs)[x].(left := Refilled(old(scs)[x]))], scs)
    {
      Insert(x, useLeft && scs[x].left > 0);
      if scs[x].left == 0 { SetLeft(x, scs[x].budget); }
    }

    method Insert(x: nat, first: bool)
      requires Valid() && x in scs && scs[x].prio < |qs| && scs[x].prev.None? && x !in away
      modifies this`scs, this`list, this`top, this`qs
      ensures Valid() && SameTimes(old(scs), scs)
      ensures var p := old(scs)[x].prio;
              qs == old(qs)[p := WithSc(old(qs)[p], x, first)]
    {
      var p := scs[x].prio;
      ghost var k, l := WithSc(qs[p], x, first), list;
      EnqueueQueues(scs, list, qs, away, x, first);
      if p > top { top := p; }
      var h := list[p];
      SameAfterEnqueue(scs, h, x);
      scs := EnqueuedMem(scs, h, x);
      if h.None? || first { list := list[p := Some(x)]; }
      assert list == l[p := First(k)];
      qs := qs[p := k];
    }

    /** Sc::ready_dequeue */
    method Dequeue(x: nat, ghost t: nat)
      requires Valid() && x in scs && scs[x].prio < |qs| && t < |qs[scs[x].prio]| && qs[scs[x].prio][t] == x
      modifies this`scs, this`list, this`top, this`qs
      ensures Valid() && SameTimes(old(scs), scs) && scs[x].prev.None?
      ensures var p := old(scs)[x].prio;
              qs == old(qs)[p := Dropped(old(qs)[p], t)]
    {
      var p := scs[x].prio;
      ghost var k, l := Dropped(qs[p], t), list;
      DequeueQueues(scs, list, qs, away, x, t);
      HeadTest(qs[p], t, x) by { assert QueueOk(scs, list, qs, p); }
      if list[p] == Some(x) { list := list[p := if scs[x].next == Some(x) then None else scs[x].next]; }
      assert list == l[p := First(k)];
      SameAfterDequeue(scs, x);
      scs := Left(scs, x);
      qs := qs[p := k];
      Lower();
    }

    /** `while (!list[prio_top] && prio_top) prio_top--` */
    method Lower()
      requires Queues(scs, list, qs, away) && top < |qs| && (forall p | top < p < |qs| :: qs[p] == [])
      modifies this`top
      ensures TopOk(qs, top)
    {
      while list[top].None? && top > 0
        invariant top < |qs| && forall p | top < p < |qs| :: qs[p] == []
      {
        assert QueueOk(scs, list, qs, top);
        top := top - 1;
      }
      assert QueueOk(scs, list, qs, top);
    }

    /** The ready queue with the current context put back unless it is suspended. */
    ghost function Candidates(suspend: bool, useLeft: bool, left: nat): seq<seq<nat>>
      reads this
      requires current in scs && scs[current].prio < |qs|
    {
      if suspend then qs
      else
        var p := scs[current].prio;
        qs[p := WithSc(qs[p], current, useLeft && left > 0)]
    }

    /** Sc::schedule_wo_activate; `left` is what the budget timer says. The next context is the first one of the highest
        priority that anyone has, and only it leaves the queue. */
    method Schedule(suspend: bool, useLeft: bool, left: nat) returns (ghost p: nat)
      requires Valid() && current in scs && scs[current].prio < |qs|
      requires !suspend ==> scs[current].prev.None? && current !in away
      requires suspend ==> exists r :: 0 <= r < |qs| && qs[r] != []
      modifies this`scs, this`list, this`top, this`current, this`qs
      ensures Valid() && scs.Keys == old(scs).Keys && current in scs && scs[current].prev.None? && current !in away
      ensures var c := old(Candidates(suspend, useLeft, left));
              && p < |c| && c[p] != [] && current == c[p][0] && scs[current].prio == p
              && (forall r | p < r < |c| :: c[r] == [])
              && qs == c[p := c[p][1..]]
      ensures var s := old(scs)[old(current)].(left := left);
              SameTimes(old(scs)[old(current) := if suspend then s else s.(left := Refilled(s))], scs)
      ensures var x := old(current);
              var p := old(scs)[x].prio;
              !suspend && (forall r | p < r < |old(qs)| :: old(qs)[r] == []) ==>
                [current] + qs[p] ==
                if useLeft && left > 0 then [x] + old(qs)[p] else NextInLine([x] + old(qs)[p])
    {
      ghost var q, x, pr := qs, current, scs[current].prio;
      p := Switch(suspend, useLeft, left);
      if !suspend && forall r | pr < r < |q| :: q[r] == [] {
        InTurn(q, pr, x, useLeft && left > 0, p, current, qs);
      }
    }

    method Switch(suspend: bool, useLeft: bool, left: nat) returns (ghost p: nat)
      requires Valid() && current in scs && scs[current].prio < |qs|
      requires !suspend ==> scs[current].prev.None? && current !in away
      requires suspend ==> exists r :: 0 <= r < |qs| && qs[r] != []
      modifies this`scs, this`list, this`top, this`current, this`qs
      ensures Valid() && scs.Keys == old(scs).Keys && current in scs && scs[current].prev.None? && current !in away
      ensures var c := old(Candidates(suspend, useLeft, left));
              && p < |c| && c[p] != [] && current == c[p][0] && scs[current].prio == p
              && (forall r | p < r < |c| :: c[r] == [])
              && qs == c[p := c[p][1..]]
      ensures var s := old(scs)[old(current)].(left := left);
              SameTimes(old(scs)[old(current) := if suspend then s else s.(left := Refilled(s))], scs)
    {
      SetLeft(current, left);
      if !suspend {
        ghost var c := scs[current].prio;
        Enqueue(current, useLeft);
        assert qs[c] != [];
      }
      p := TakeFirst();
    }

    /** The first context of the highest priority leaves the queue and is the current one. */
    method TakeFirst() returns (ghost p: nat)
      requires Valid() && exists r :: 0 <= r < |qs| && qs[r] != []
      modifies this`scs, this`list, this`top, this`current, this`qs
      ensures Valid() && SameTimes(old(scs), scs) && current in scs && scs[current].prev.None? && current !in away
      ensures p < |old(qs)| && old(qs)[p] != [] && current == old(qs)[p][0] && scs[current].prio == p
      ensures (forall r | p < r < |old(qs)| :: old(qs)[r] == []) && qs == old(qs)[p := old(qs)[p][1..]]
    {
      SomeoneOnTop();
      assert QueueOk(scs, list, qs, top);
      p := top;
      current := list[top].value;
      assert current in qs[top] && Placed(scs, qs, away, current);
      assert Dropped(qs[top], 0) == qs[top][1..];
      Dequeue(current, 0);
    }

    /** Ec::block_sc links the current context into a wait queue before it is suspended; the links there are not looked
        at here. */
    method Wait(prev: Option<nat>, next: Option<nat>)
      requires Valid() && current in scs && scs[current].prev.None? && current !in away
      modifies this`scs, this`away
      ensures Valid() && away == old(away) + {current}
      ensures scs == old(scs)[current := old(scs)[current].(prev := prev, next := next)]
    {
      assert Placed(scs, qs, away, current);
      Relink(current, prev, next, away + {current});
    }

    /** A context that leaves a wait queue. */
    method Wake(x: nat)
      requires Valid() && x in scs && x in away
      modifies this`scs, this`away
      ensures Valid() && away == old(away) - {x} && scs == old(scs)[x := old(scs)[x].(prev := None, next := None)]
    {
      assert Placed(scs, qs, away, x);
      Relink(x, None, None, away - {x});
    }

    method Relink(x: nat, prev: Option<nat>, next: Option<nat>, ghost now: set<nat>)
      requires Valid() && x in scs && scs[x].prio < |qs| && x !in qs[scs[x].prio]
      requires forall y | y != x :: y in now <==> y in away
      requires x !in now ==> prev.None?
      modifies this`scs, this`away
      ensures Valid() && away == now && scs == old(scs)[x := old(scs)[x].(prev := prev, next := next)]
    {
      ghost var m := scs;
      scs := scs[x := scs[x].(prev := prev, next := next)];
      forall p: nat | p < |qs| ensures QueueOk(scs, list, qs, p) {
        assert QueueOk(m, list, qs, p);
        CircleFrame(m, scs, qs[p]);
      }
      forall y | y in scs ensures Placed(scs, qs, now, y) {
        assert Placed(m, qs, away, y);
      }
      away := now;
    }

    lemma SomeoneOnTop()
      requires Valid() && exists r :: 0 <= r < |qs| && qs[r] != []
      ensures qs[top] != []
    {
      var r :| 0 <= r < |qs| && qs[r] != [];
    }

    method SetLeft(x: nat, left: nat)
      requires Valid() && x in scs
      modifies this`scs
      ensures Valid() && scs == old(scs)[x := old(scs)[x].(left := left)]
    {
      ghost var m := scs;
      scs := scs[x := scs[x].(left := left)];
      forall p: nat | p < |qs| ensures QueueOk(scs, list, qs, p) {
        assert QueueOk(m, list, qs, p);
        CircleFrame(m, scs, qs[p]);
      }
      forall y | y in scs ensures Placed(scs, qs, away, y) {
        assert Placed(m, qs, away, y);
      }
    }
  }
}
