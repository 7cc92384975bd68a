/** The ticket lock of include/spinlock.hpp: a 16-bit word whose high byte hands out tickets and whose low byte says
    which ticket is served. Any number of contenders take steps of one shared access each. */
module TicketLock {
  import opened Counting

  const BYTE: nat := 256

  /** Where a contender is: about to compare its ticket with the byte it has seen, about to load that byte again, or in
      the critical section. */
  datatype Pc = Out | Compare(ticket: nat, seen: nat) | Spin(ticket: nat) | In

  /** The two bytes and the contenders; the rest is history: who took a ticket and who entered, in order, how often the
      lock was released, the position at which each contender last took a ticket, and how often the lock had been
      released when the byte it has seen was loaded. */
  datatype State = State(next: nat, serving: nat, pcs: seq<Pc>,
                         takes: seq<nat>, enters: seq<nat>, exits: nat, turn: seq<nat>, since: seq<nat>)

  /** `xadd` of 0x100; a comparison in registers; a load of the low byte; `incb` of the low byte. */
  datatype Action = Take | Check | Load | Unlock

  predicate Enabled(s: State, i: nat, a: Action) {
    && i < |s.pcs| && |s.turn| == |s.pcs| == |s.since|
    && match a
       case Take => s.pcs[i].Out?
       case Check => s.pcs[i].Compare?
       case Load => s.pcs[i].Spin?
       case Unlock => s.pcs[i].In?
  }

  function Do(s: State, i: nat, a: Action): State
    requires Enabled(s, i, a)
  {
    match a
    case Take =>
      s.(next := (s.next + 1) % BYTE, pcs := s.pcs[i := Compare(s.next, s.serving)],
         takes := s.takes + [i], turn := s.turn[i := |s.takes|], since := s.since[i := s.exits])
    case Check =>
      if s.pcs[i].ticket == s.pcs[i].seen then s.(pcs := s.pcs[i := In], enters := s.enters + [i])
      else s.(pcs := s.pcs[i := Spin(s.pcs[i].ticket)])
    case Load => s.(pcs := s.pcs[i := Compare(s.pcs[i].ticket, s.serving)], since := s.since[i := s.exits])
    case Unlock => s.(pcs := s.pcs[i := Out], serving := (s.serving + 1) % BYTE, exits := s.exits + 1)
  }

  function Start(n: nat): State {
    State(0, 0, seq(n, _ => Out), [], [], 0, seq(n, _ => 0), seq(n, _ => 0))
  }

  /** The states of a run; a step that is not enabled is skipped. */
  function After(n: nat, run: seq<(nat, Action)>): State {
    if run == [] then Start(n)
    else
      var s := After(n, run[..|run| - 1]);
      var (i, a) := run[|run| - 1];
      if Enabled(s, i, a) then Do(s, i, a) else s
  }

  // ----- the invariant

  predicate Waits(s: State, i: nat)
    requires i < |s.pcs|
  {
    !s.pcs[i].Out?
  }

  /** Contender i, if it is not outside, holds the place in the queue that its ticket says. */
  predicate Queued(s: State, i: nat)
    requires i < |s.pcs| && |s.turn| == |s.pcs| == |s.since|
  {
    var c, t := s.pcs[i], s.turn[i];
    !c.Out? ==>
      && s.exits <= t < |s.takes| && s.takes[t] == i && s.since[i] <= s.exits && t - s.since[i] < BYTE
      && (c.Compare? ==> c.ticket == t % BYTE && c.seen == s.since[i] % BYTE)
      && (c.Spin? ==> c.ticket == t % BYTE)
      && (c.In? ==> t == s.exits && |s.enters| == s.exits + 1)
  }

  /** Everyone in the queue is the contender waiting there. */
  predicate InPlace(s: State, t: nat)
    requires t < |s.takes| && |s.turn| == |s.pcs|
  {
    var i := s.takes[t];
    i < |s.pcs| && (t >= s.exits ==> Waits(s, i) && s.turn[i] == t)
  }

  predicate Inv(s: State) {
    && |s.turn| == |s.pcs| == |s.since|
    && s.next == |s.takes| % BYTE && s.serving == s.exits % BYTE
    && s.exits <= |s.enters| <= s.exits + 1 && |s.enters| <= |s.takes| && s.enters == s.takes[..|s.enters|]
    && (|s.enters| > s.exits ==> s.takes[s.exits] < |s.pcs| && s.pcs[s.takes[s.exits]].In?)
    && (forall i: nat | i < |s.pcs| :: Queued(s, i))
    && (forall t: nat | t < |s.takes| :: InPlace(s, t))
  }

  function Members(l: seq<nat>): set<nat> { set x | x in l }

  lemma {:induction false} DistinctSize(l: seq<nat>)
    requires forall a, b | 0 <= a < b < |l| :: l[a] != l[b]
    ensures |Members(l)| == |l|
    decreases |l|
  {
    if l != [] {
      var k, e := l[..|l| - 1], l[|l| - 1];
      DistinctSize(k);
      assert l == k + [e];
      assert Members(l) == Members(k) + {e};
    }
  }

  /** A contender outside the queue leaves room in it. */
  lemma QueueBounded(s: State, i: nat)
    requires Inv(s) && i < |s.pcs| && s.pcs[i].Out?
    ensures |s.takes| - s.exits < |s.pcs|
  {
    var l := s.takes[s.exits..] + [i];
    forall k | 0 <= k < |l| - 1 ensures l[k] == s.takes[s.exits + k] && l[k] != i && l[k] < |s.pcs| {
      assert InPlace(s, s.exits + k);
    }
    forall a, b | 0 <= a < b < |l| ensures l[a] != l[b] {
      if b < |l| - 1 { assert InPlace(s, s.exits + a) && InPlace(s, s.exits + b); }
    }
    DistinctSize(l);
    SizeBelow(Members(l), |s.pcs|);
  }

  // ----- the steps

  lemma NextByte(a: nat)
    ensures (a % BYTE + 1) % BYTE == (a + 1) % BYTE
  {
  }

  lemma TakeInv(s: State, i: nat)
    requires Inv(s) && Enabled(s, i, Take) && |s.pcs| <= BYTE
    ensures Inv(Do(s, i, Take))
  {
    var r := Do(s, i, Take);
    QueueBounded(s, i);
    NextByte(|s.takes|);
    forall j: nat | j < |r.pcs| ensures Queued(r, j) {
      assert Queued(s, j);
    }
    forall t: nat | t < |r.takes| ensures InPlace(r, t) {
      if t < |s.takes| { assert InPlace(s, t); }
    }
    assert r.takes[..|s.enters|] == s.takes[..|s.enters|];
  }

  /** Bytes that are fewer than 256 apart are equal only if the numbers are. */
  lemma SameByte(a: nat, b: nat)
    requires a <= b < a + BYTE && a % BYTE == b % BYTE
    ensures a == b
  {
  }

  lemma CheckInv(s: State, i: nat)
    requires Inv(s) && Enabled(s, i, Check)
    ensures Inv(Do(s, i, Check))
  {
    var r := Do(s, i, Check);
    assert Queued(s, i);
    if s.pcs[i].ticket == s.pcs[i].seen {
      SameByte(s.since[i], s.turn[i]);
      assert |s.enters| == s.exits;
      assert r.enters == r.takes[..|r.enters|];
    }
    forall j: nat | j < |r.pcs| ensures Queued(r, j) {
      assert Queued(s, j);
      if j != i && r.pcs[j].In? { assert s.takes[s.exits] == j; }
    }
    forall t: nat | t < |r.takes| ensures InPlace(r, t) {
      assert InPlace(s, t);
    }
  }

  lemma LoadInv(s: State, i: nat)
    requires Inv(s) && Enabled(s, i, Load)
    ensures Inv(Do(s, i, Load))
  {
    var r := Do(s, i, Load);
    forall j: nat | j < |r.pcs| ensures Queued(r, j) {
      assert Queued(s, j);
    }
    forall t: nat | t < |r.takes| ensures InPlace(r, t) {
      assert InPlace(s, t);
    }
  }

  lemma UnlockInv(s: State, i: nat)
    requires Inv(s) && Enabled(s, i, Unlock)
    ensures Inv(Do(s, i, Unlock))
  {
    var r := Do(s, i, Unlock);
    assert Queued(s, i);
    NextByte(s.exits);
    forall j: nat | j < |r.pcs| ensures Queued(r, j) {
      assert Queued(s, j);
    }
    forall t: nat | t < |r.takes| ensures InPlace(r, t) {
      assert InPlace(s, t);
    }
  }

  lemma StepInv(s: State, i: nat, a: Action)
    requires Inv(s) && Enabled(s, i, a) && |s.pcs| <= BYTE
    ensures Inv(Do(s, i, a)) && |Do(s, i, a).pcs| == |s.pcs|
  {
    match a
    case Take => TakeInv(s, i);
    case Check => CheckInv(s, i);
    case Load => LoadInv(s, i);
    case Unlock => UnlockInv(s, i);
  }

  lemma {:induction false} RunInv(n: nat, run: seq<(nat, Action)>)
    requires n <= BYTE
    ensures Inv(After(n, run)) && |After(n, run).pcs| == n
    decreases |run|
  {
    if run != [] {
      RunInv(n, run[..|run| - 1]);
      var s := After(n, run[..|run| - 1]);
      var (i, a) := run[|run| - 1];
      if Enabled(s, i, a) { StepInv(s, i, a); }
    }
  }

  // ----- what the lock promises

  predicate Exclusive(s: State) { forall i, j | 0 <= i < j < |s.pcs| :: !(s.pcs[i].In? && s.pcs[j].In?) }

  /** Mutual exclusion, first come first served, and a turn for whoever is next: up to 256 contenders. */
  lemma LockWorks(n: nat, run: seq<(nat, Action)>)
    requires n <= BYTE
    ensures var s := After(n, run);
            && Exclusive(s) && s.enters <= s.takes
            && (s.exits < |s.takes| ==>
                  var i := s.takes[s.exits];
                  i < |s.pcs| && (s.pcs[i].In? || (!s.pcs[i].Out? && s.pcs[i].ticket == s.serving)))
  {
    RunInv(n, run);
    var s := After(n, run);
    forall i, j | 0 <= i < j < |s.pcs| ensures !(s.pcs[i].In? && s.pcs[j].In?) {
      assert Queued(s, i) && Queued(s, j);
    }
    if s.exits < |s.takes| { assert InPlace(s, s.exits) && Queued(s, s.takes[s.exits]); }
  }

  function Next(s: State, i: nat, a: Action): State { if Enabled(s, i, a) then Do(s, i, a) else s }

  lemma OneMore(n: nat, run: seq<(nat, Action)>, i: nat, a: Action)
    ensures After(n, run + [(i, a)]) == Next(After(n, run), i, a)
  {
    assert (run + [(i, a)])[..|run|] == run;
  }

  /** Whoever is next gets in: wherever the contender stands whose turn it is, comparing, loading the byte again and
      comparing once more brings it inside. */
  lemma NextGetsIn(n: nat, run: seq<(nat, Action)>)
    requires n <= BYTE && After(n, run).exits < |After(n, run).takes|
    ensures var s := After(n, run);
            var i := s.takes[s.exits];
            var t := After(n, run + [(i, Check)] + [(i, Load)] + [(i, Check)]);
            i < |t.pcs| && t.pcs[i].In?
  {
    RunInv(n, run);
    var s := After(n, run);
    var i := s.takes[s.exits];
    GetsIn(s, i);
    OneMore(n, run, i, Check);
    OneMore(n, run + [(i, Check)], i, Load);
    OneMore(n, run + [(i, Check)] + [(i, Load)], i, Check);
  }

  lemma GetsIn(s: State, i: nat)
    requires Inv(s) && s.exits < |s.takes| && i == s.takes[s.exits]
    ensures var t := Next(Next(Next(s, i, Check), i, Load), i, Check);
            i < |t.pcs| && t.pcs[i].In?
  {
    assert InPlace(s, s.exits) && Queued(s, i);
    var c := s.pcs[i];
    if c.Compare? && c.ticket != c.seen {
      assert Next(s, i, Check).pcs[i] == Spin(s.serving);
    }
  }

  /** A turn is kept: until the contender whose turn it is has left again, it stays the one whose turn it is, whatever
      the others do. */
  lemma TurnKept(n: nat, run: seq<(nat, Action)>, i: nat, a: Action)
    requires n <= BYTE
    ensures var s, t := After(n, run), After(n, run + [(i, a)]);
            s.exits < |s.takes| && !(a == Unlock && i == s.takes[s.exits]) ==>
              t.exits == s.exits && t.exits < |t.takes| && t.takes[t.exits] == s.takes[s.exits]
  {
    RunInv(n, run);
    OneMore(n, run, i, a);
    var s := After(n, run);
    if Enabled(s, i, a) { assert Queued(s, i); }
  }

  /** Contenders 0, 1, 2, ... take a ticket one after the other, and the last of them compares it. */
  function Takes(k: nat): seq<(nat, Action)> { if k == 0 then [] else Takes(k - 1) + [(k - 1, Take)] }

  lemma {:induction false} AfterTakes(n: nat, k: nat)
    requires k <= n
    ensures Took(After(n, Takes(k)), n, k)
  {
    if k > 0 {
      AfterTakes(n, k - 1);
      assert Takes(k)[..|Takes(k)| - 1] == Takes(k - 1);
      TookNext(After(n, Takes(k - 1)), n, k - 1);
    }
  }

  predicate Took(s: State, n: nat, k: nat) {
    && |s.pcs| == |s.turn| == |s.since| == n && s.next == k % BYTE && s.serving == 0
    && (forall j | 0 <= j < n :: s.pcs[j] == if j < k then Compare(j % BYTE, 0) else Out)
  }

  lemma TookNext(s: State, n: nat, k: nat)
    requires Took(s, n, k) && k < n
    ensures Enabled(s, k, Take) && Took(Do(s, k, Take), n, k + 1)
  {
    NextByte(k);
  }

  /** The bound is tight: with one more contender two can be inside. */
  lemma OneTooMany(n: nat)
    requires n > BYTE
    ensures exists run :: !Exclusive(After(n, run))
  {
    var r := Takes(BYTE + 1);
    AfterTakes(n, BYTE + 1);
    var s := After(n, r);
    var r1 := r + [(0, Check)];
    assert r1[..|r1| - 1] == r;
    var s1 := After(n, r1);
    assert s1 == Do(s, 0, Check) && s1.pcs[0].In?;
    var r2 := r1 + [(BYTE, Check)];
    assert r2[..|r2| - 1] == r1;
    assert After(n, r2) == Do(s1, BYTE, Check);
    assert After(n, r2).pcs[0].In? && After(n, r2).pcs[BYTE].In?;
    assert !Exclusive(After(n, r2));
  }

  /** Exclusive in every interleaving exactly for up to 256 contenders. */
  lemma ExactBound(n: nat)
    ensures (forall run :: Exclusive(After(n, run))) <==> n <= BYTE
  {
    if n <= BYTE {
      forall run ensures Exclusive(After(n, run)) {
        LockWorks(n, run);
      }
    } else {
      OneTooMany(n);
    }
  }
}
