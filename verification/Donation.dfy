/** Call, help and reply between the execution contexts of one CPU (src/syscall.cpp, include/ec.hpp): who waits for
    whom, and where the time of a scheduling context goes. */
module Donation {
  import opened Options
  import opened Counting

  /** A continuation: none (waiting for a message), one to run, or `dead`. */
  datatype Cont = Ready | Busy | Dead

  /** An execution context: whom it waits for, whom it serves, its continuation, and whether it sleeps in a queue. */
  datatype Ec = Ec(partner: Option<nat>, rcap: Option<nat>, cont: Cont, queued: bool)

  // ----- chains

  function Partner(l: seq<Ec>, e: nat): Option<nat> { if e < |l| then l[e].partner else None }

  /** The context n links further. */
  function Follow(l: seq<Ec>, e: nat, n: nat): Option<nat> {
    if n == 0 then Some(e)
    else
      var x := Follow(l, e, n - 1);
      if x.Some? then Partner(l, x.value) else None
  }

  predicate LinkOk(l: seq<Ec>, e: nat)
    requires e < |l|
  {
    && (l[e].partner.Some? ==> l[e].partner.value < |l| && l[l[e].partner.value].rcap == Some(e) && l[e].cont == Busy)
    && (l[e].rcap.Some? ==> l[e].rcap.value < |l| && l[l[e].rcap.value].partner == Some(e) && l[e].cont != Ready)
  }

  /** Who waits for someone is served by exactly that one, and neither of the two is ready for another message. */
  predicate Links(l: seq<Ec>) { forall e | 0 <= e < |l| :: LinkOk(l, e) }

  /** Ranks fall along every chain. */
  predicate Ranked(l: seq<Ec>, rank: seq<int>) {
    && |rank| == |l|
    && forall e | 0 <= e < |l| && l[e].partner.Some? && l[e].partner.value < |l| :: rank[l[e].partner.value] < rank[e]
  }

  function Visited(l: seq<Ec>, e: nat, n: nat): set<nat> {
    if n == 0 then {}
    else Visited(l, e, n - 1) + (if Follow(l, e, n - 1).Some? then {Follow(l, e, n - 1).value} else {})
  }

  /** A chain of n links has gone through n different contexts, all of them ranked higher than where it is now. */
  lemma {:induction false} ChainDistinct(l: seq<Ec>, rank: seq<int>, e: nat, n: nat)
    requires Links(l) && Ranked(l, rank) && e < |l| && Follow(l, e, n).Some?
    ensures Follow(l, e, n).value < |l| && |Visited(l, e, n)| == n
    ensures forall x | x in Visited(l, e, n) :: x < |l| && rank[x] > rank[Follow(l, e, n).value]
  {
    if n > 0 {
      ChainDistinct(l, rank, e, n - 1);
      assert LinkOk(l, Follow(l, e, n - 1).value);
    }
  }

  /** So it is shorter than the number of contexts. */
  lemma ChainBounded(l: seq<Ec>, rank: seq<int>, e: nat, n: nat)
    requires Links(l) && Ranked(l, rank) && e < |l| && Follow(l, e, n).Some?
    ensures n < |l|
  {
    ChainDistinct(l, rank, e, n);
    var x := Follow(l, e, n).value;
    SizeBelow(Visited(l, e, n) + {x}, |l|);
  }

  /** Every chain ends. */
  lemma {:induction false} ChainEnds(l: seq<Ec>, rank: seq<int>, e: nat, n: nat) returns (k: nat)
    requires Links(l) && Ranked(l, rank) && e < |l| && Follow(l, e, n).Some?
    ensures n <= k < |l| && Follow(l, e, k).Some? && Partner(l, Follow(l, e, k).value) == None
    decreases |l| - n
  {
    ChainBounded(l, rank, e, n);
    if Partner(l, Follow(l, e, n).value) == None {
      k := n;
    } else {
      k := ChainEnds(l, rank, e, n + 1);
    }
  }

  /** No context waits for itself, not even through others. */
  lemma NoCycle(l: seq<Ec>, rank: seq<int>, e: nat, n: nat)
    requires Links(l) && Ranked(l, rank) && e < |l| && n > 0
    ensures Follow(l, e, n) != Some(e)
  {
    if Follow(l, e, n).Some? {
      ChainDistinct(l, rank, e, n);
      VisitedStart(l, e, n);
    }
  }

  lemma {:induction false} VisitedStart(l: seq<Ec>, e: nat, n: nat)
    requires n > 0
    ensures e in Visited(l, e, n)
  {
    if n > 1 { VisitedStart(l, e, n - 1); }
  }

  /** The chain up to its n-th context does not depend on the links of contexts it has not been through. */
  lemma {:induction false} FollowKept(l: seq<Ec>, k: seq<Ec>, e: nat, n: nat)
    requires forall x | x in Visited(l, e, n) :: Partner(k, x) == Partner(l, x)
    ensures Follow(k, e, n) == Follow(l, e, n)
  {
    if n > 0 { FollowKept(l, k, e, n - 1); }
  }

  // ----- call and reply on links

  function Called(l: seq<Ec>, c: nat, s: nat): seq<Ec>
    requires c < |l| && s < |l|
  {
    var m := l[c := l[c].(cont := Busy, partner := Some(s))];
    m[s := m[s].(cont := Busy, rcap := Some(c))]
  }

  lemma CalledLinks(l: seq<Ec>, rank: seq<int>, c: nat, s: nat)
    requires Links(l) && Ranked(l, rank) && c < |l| && s < |l| && l[c].partner.None? && l[c].cont == Busy
             && l[s].cont == Ready
    ensures Links(Called(l, c, s)) && Ranked(Called(l, c, s), rank[s := rank[c] - 1])
  {
    assert LinkOk(l, c) && LinkOk(l, s);
    forall e | 0 <= e < |l| ensures LinkOk(Called(l, c, s), e) {
      assert LinkOk(l, e);
    }
    forall e | 0 <= e < |l| && l[e].partner.Some? ensures l[e].partner.value != s {
      assert LinkOk(l, e);
    }
  }

  function Replied(l: seq<Ec>, c: nat, next: Cont): seq<Ec>
    requires c < |l|
  {
    var m := l[c := l[c].(cont := next)];
    if l[c].rcap.None? || l[c].rcap.value >= |l| then m
    else
      var k := l[c].rcap.value;
      var o := m[c := m[c].(rcap := None)];
      o[k := o[k].(partner := None)]
  }

  lemma RepliedLinks(l: seq<Ec>, rank: seq<int>, c: nat, next: Cont)
    requires Links(l) && Ranked(l, rank) && c < |l| && l[c].partner.None?
    ensures Links(Replied(l, c, next)) && Ranked(Replied(l, c, next), rank)
  {
    assert LinkOk(l, c);
    forall e | 0 <= e < |l| ensures LinkOk(Replied(l, c, next), e) {
      assert LinkOk(l, e);
    }
  }

  /** Whatever the reply leaves the server with, ready or dead, and whether or not somebody waited for it: its
      continuation is that one and it serves nobody; the caller waits for nobody; nothing else changes. */
  lemma RepliedState(l: seq<Ec>, c: nat, next: Cont, e: nat)
    requires Links(l) && c < |l| && e < |l|
    ensures var m := Replied(l, c, next);
            && |m| == |l| && m[c].cont == next && m[c].rcap == None
            && (e == c || m[e].cont == l[e].cont) && (e == c || m[e].rcap == l[e].rcap) && m[e].queued == l[e].queued
            && m[e].partner == if l[c].rcap == Some(e) then None else l[e].partner
  {
    assert LinkOk(l, c);
  }

  /** A reply undoes the call. */
  lemma ReplyUndoesCall(l: seq<Ec>, c: nat, s: nat)
    requires Links(l) && c < |l| && s < |l| && c != s && l[c].partner.None? && l[c].cont == Busy && l[s].cont == Ready
    ensures Replied(Called(l, c, s), s, Ready) == l
  {
    assert LinkOk(l, s);
  }

  /** c ends the chain from `start`, n links further, and can run. */
  predicate Runs(l: seq<Ec>, start: nat, n: nat, c: nat) {
    && c < |l| && start < |l| && l[c].cont == Busy && Follow(l, start, n) == Some(c) && l[c].partner == None
  }

  lemma CallRuns(l: seq<Ec>, rank: seq<int>, start: nat, n: nat, c: nat, s: nat)
    requires Links(l) && Ranked(l, rank) && Runs(l, start, n, c) && s < |l| && l[s].cont == Ready
    ensures Runs(Called(l, c, s), start, n + 1, s)
  {
    var m := Called(l, c, s);
    assert LinkOk(l, s);
    ChainDistinct(l, rank, start, n);
    forall x | x in Visited(l, start, n) ensures Partner(m, x) == Partner(l, x) {
      assert x != c;
    }
    FollowKept(l, m, start, n);
    assert Follow(m, start, n + 1) == Partner(m, c);
  }

  /** Going one link back from the running context leads to the one it serves. */
  lemma ReplyRuns(l: seq<Ec>, rank: seq<int>, start: nat, n: nat, c: nat, next: Cont)
    requires Links(l) && Ranked(l, rank) && Runs(l, start, n, c) && n > 0
    ensures l[c].rcap.Some? && l[c].rcap.value < |l| && Runs(Replied(l, c, next), start, n - 1, l[c].rcap.value)
  {
    ChainDistinct(l, rank, start, n - 1);
    ServedIsBefore(l, start, n, c);
    FollowReplied(l, rank, start, n - 1, c, next);
    RepliedCaller(l, c, next);
  }

  lemma FollowReplied(l: seq<Ec>, rank: seq<int>, start: nat, n: nat, c: nat, next: Cont)
    requires Links(l) && Ranked(l, rank) && start < |l| && c < |l| && Follow(l, start, n).Some?
             && Follow(l, start, n) == l[c].rcap
    ensures Follow(Replied(l, c, next), start, n) == Follow(l, start, n)
  {
    ChainDistinct(l, rank, start, n);
    forall x | x in Visited(l, start, n) ensures Partner(Replied(l, c, next), x) == Partner(l, x) {
      RepliedPartners(l, c, next, x);
    }
    FollowKept(l, Replied(l, c, next), start, n);
  }

  lemma ServedIsBefore(l: seq<Ec>, start: nat, n: nat, c: nat)
    requires Links(l) && n > 0 && Follow(l, start, n) == Some(c) && c < |l|
    requires Follow(l, start, n - 1).Some? && Follow(l, start, n - 1).value < |l|
    ensures l[c].rcap == Follow(l, start, n - 1)
  {
    var k := Follow(l, start, n - 1).value;
    assert Partner(l, k) == Some(c) && LinkOk(l, k);
  }

  lemma RepliedPartners(l: seq<Ec>, c: nat, next: Cont, x: nat)
    requires c < |l| && Some(x) != l[c].rcap
    ensures Partner(Replied(l, c, next), x) == Partner(l, x)
  {
  }

  lemma RepliedCaller(l: seq<Ec>, c: nat, next: Cont)
    requires Links(l) && c < |l| && l[c].partner.None? && l[c].rcap.Some? && l[c].rcap.value < |l|
    ensures var k := l[c].rcap.value;
            Replied(l, c, next)[k].partner == None && Replied(l, c, next)[k].cont == Busy
  {
    assert LinkOk(l, c);
    assert LinkOk(l, l[c].rcap.value);
  }

  /** Following the chain from e to its end, `links` links further, `current` is the context found there if it can
      run. */
  predicate Lands(l: seq<Ec>, e: nat, links: int, current: Option<nat>) {
    && 0 <= links < |l|
    && var x := Follow(l, e, links);
       && x.Some? && x.value < |l| && Partner(l, x.value) == None
       && current == if l[x.value].cont == Busy && !l[x.value].queued then x else None
  }

  // ----- one CPU

  class Cpu {
    var ecs: seq<Ec>
    var current: Option<nat>      // none while the scheduler has nothing to run
    var links: int                // Sc::ctr_link
    ghost var start: nat          // the context that was activated last
    ghost var rank: seq<int>

    /** The links are sound and free of cycles, and the running context ends the chain from the one that was activated,
        `links` links further. */
    ghost predicate Valid()
      reads this
    {
      && Links(ecs) && Ranked(ecs, rank)
      && (current.Some? ==> links >= 0 && Runs(ecs, start, links, current.value))
    }

    constructor (n: nat)
      ensures Valid() && |ecs| == n && current.None?
    {
      ecs := seq(n, _ => Ec(None, None, Ready, false));
      current, links, start := None, 0, 0;
      rank := seq(n, _ => 0);
    }

    /** Ec::activate. The loop ends because no chain is cyclic; a context that cannot run leaves the CPU to the
        scheduler. */
    method Activate(e: nat)
      requires Links(ecs) && Ranked(ecs, rank) && e < |ecs|
      modifies this`current, this`links, this`start
      ensures Valid() && start == e && Lands(ecs, e, links, current)
    {
      var x := e;
      links := 0;
      ChainBounded(ecs, rank, e, 0);
      while ecs[x].partner.Some?
        invariant 0 <= links < |ecs| && x < |ecs| && Follow(ecs, e, links) == Some(x)
        decreases |ecs| - links
      {
        assert LinkOk(ecs, x);
        x := ecs[x].partner.value;
        links := links + 1;
        ChainBounded(ecs, rank, e, links);
      }
      start := e;
      current := if ecs[x].cont == Busy && !ecs[x].queued then Some(x) else None;
    }

    /** Ec::sys_call and Ec::send_msg to the context s behind a portal of this CPU. A ready one gets the message; a dead
        one refuses; otherwise the caller, unless it does not want to wait, is retried later and its time helps s to get
        ready. */
    method Call(s: nat, blocking: bool) returns (sent: bool)
      requires Valid() && current.Some? && s < |ecs|
      modifies this
      ensures Valid()
      ensures sent <==> old(ecs[s].cont) == Ready
      ensures sent ==> ecs == Called(old(ecs), old(current).value, s) && current == Some(s) && links == old(links) + 1
                       && start == old(start)
      ensures !sent ==> ecs == old(ecs)
      ensures old(ecs[s].cont) == Busy && blocking ==> start == s && Lands(ecs, s, links, current)
      ensures !sent && (old(ecs[s].cont) == Dead || !blocking) ==> current == old(current) && links == old(links)
    {
      var c := current.value;
      if ecs[s].cont == Ready {
        CalledLinks(ecs, rank, c, s);
        CallRuns(ecs, rank, start, links, c, s);
        ecs := Called(ecs, c, s);
        rank := rank[s := rank[c] - 1];
        links := links + 1;
        current := Some(s);
        return true;
      }
      if ecs[s].cont == Busy && blocking { Activate(s); }
      return false;
    }

    /** Ec::reply to whom the current context serves; `root` is the context of the current scheduling context. The
        caller goes on if it lies on the chain that was activated, otherwise the scheduling context returns to its
        own. */
    method Reply(next: Cont, root: nat)
      requires Valid() && current.Some? && root < |ecs| && next != Busy
      modifies this
      ensures Valid() && ecs == Replied(old(ecs), old(current).value, next)
      ensures var k := old(ecs)[old(current).value].rcap;
              if k.Some? && old(links) > 0
              then current == k && links == old(links) - 1 && start == old(start)
              else start == root && Lands(ecs, root, links, current)
    {
      var c := current.value;
      var k := ecs[c].rcap;
      RepliedLinks(ecs, rank, c, next);
      if k.None? || links == 0 {
        ecs := Replied(ecs, c, next);
        Activate(root);
        return;
      }
      ReplyRuns(ecs, rank, start, links, c, next);
      ecs := Replied(ecs, c, next);
      links := links - 1;
      current := k;
    }

    /** A context falls asleep or is woken, and the scheduler picks the context `root`. */
    method Schedule(root: nat, e: nat, queued: bool)
      requires Valid() && root < |ecs| && e < |ecs|
      modifies this
      ensures Valid() && ecs == old(ecs)[e := old(ecs)[e].(queued := queued)]
      ensures start == root && Lands(ecs, root, links, current)
    {
      ghost var before := ecs;
      ecs := ecs[e := ecs[e].(queued := queued)];
      forall x | 0 <= x < |ecs| ensures LinkOk(ecs, x) {
        assert LinkOk(before, x);
      }
      Activate(root);
    }

    /** A new context starts to run user code. */
    method Begin(e: nat)
      requires Valid() && e < |ecs| && ecs[e].cont == Ready
      modifies this`ecs
      ensures Valid() && ecs == old(ecs)[e := old(ecs)[e].(cont := Busy)]
    {
      ghost var before := ecs;
      ecs := ecs[e := ecs[e].(cont := Busy)];
      forall x | 0 <= x < |ecs| ensures LinkOk(ecs, x) {
        assert LinkOk(before, x);
      }
      if current.Some? { FollowKept(before, ecs, start, links); }
    }
  }
}
