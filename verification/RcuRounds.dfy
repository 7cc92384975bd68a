/** Rcu operations finish and callbacks run (src/rcu.cpp): every operation of a CPU ends within a bounded number of its
    own steps whatever the others do, and where all CPUs keep updating and going quiet, every callback is invoked. */
module RcuRounds {
  import opened Rcu
  import opened RcuProgress

  type Run = seq<(nat, Action)>

  // ----- operations are wait-free

  /** The steps that remain in the loop of Rcu::start_batch: the compare-and-swap fails only where somebody else has set
      a flag or started a batch, and that ends the loop or happens once. */
  function LoopRank(st: nat, c: Cpu): nat {
    var over := c.pc.Read? || c.pc.Swap? ==> Batch(st) != c.lBatch || HasFlag(st, c.pc.f);
    match c.pc
    case Read(f) => if over then 1 else if HasFlag(st, Other(f)) then 4 else 7
    case Swap(f, v) =>
      if over then 2 else if st == v then (if HasFlag(st, Other(f)) then 3 else 6)
      else if HasFlag(st, Other(f)) then 5 else 8
    case _ => 0
  }

  /** The steps that CPU k still needs, at most, until it is idle. */
  function Rank(s: System, k: nat): nat
    requires k < |s.cpus|
  {
    var c := s.cpus[k];
    match c.pc
    case Idle => 0
    case Invoke => 1 + |c.done|
    case Store(_, _) => 2 + |c.done|
    case Load(_) => 3 + |c.done|
    case Reset(_) => 4 + |c.done|
    case Read(_) => 4 + |c.done| + LoopRank(s.state, c)
    case Swap(_, _) => 4 + |c.done| + LoopRank(s.state, c)
    case Shift => 13 + |c.done|
    case Quiet => 13 + |c.done|
    case Check => 14 + |c.done| + |c.curr|
    case Refresh => 15 + |c.done| + |c.curr|
  }

  lemma RankBound(s: System, k: nat)
    requires k < |s.cpus|
    ensures Rank(s, k) <= 15 + |s.cpus[k].done| + |s.cpus[k].curr|
  {
  }

  lemma OwnRank(s: System, k: nat)
    requires k < |s.cpus| && s.cpus[k].pc != Idle
    ensures |Continue(s, k).cpus| == |s.cpus| && Rank(Continue(s, k), k) < Rank(s, k)
  {
  }

  lemma LoopFlag(st: nat, f: Flag, c: Cpu)
    requires !HasFlag(st, f)
    ensures LoopRank(st + Bit(f), c) <= LoopRank(st, c)
  {
    FlagSet(st, f);
  }

  lemma LoopCarry(st: nat, c: Cpu)
    requires HasFlag(st, CMP) && HasFlag(st, PND) && c.lBatch <= Batch(st)
    ensures LoopRank(st + 1, c) <= LoopRank(st, c)
  {
    Carry(st);
  }

  lemma OtherLoop(s: System, i: nat, a: Action, c: Cpu)
    requires Inv(s) && Enabled(s, i, a) && c.lBatch <= Batch(s.state)
    ensures LoopRank(Do(s, i, a).state, c) <= LoopRank(s.state, c)
  {
    assert CpuOk(s, i);
    var p := s.cpus[i].pc;
    if a == Advance && p.Swap? && s.state == p.v { LoopFlag(s.state, p.f, c); }
    if a == Advance && p.Store? { LoopCarry(s.state, c); }
  }

  lemma OtherRank(s: System, i: nat, a: Action, k: nat)
    requires Inv(s) && Enabled(s, i, a) && k < |s.cpus| && i != k
    ensures |Do(s, i, a).cpus| == |s.cpus| && Rank(Do(s, i, a), k) <= Rank(s, k)
  {
    OthersWait(s, i, a, k);
    assert CpuOk(s, k);
    OtherLoop(s, i, a, s.cpus[k]);
  }

  /** How often CPU k goes on within a run. */
  function OwnSteps(more: Run, k: nat): nat {
    if more == [] then 0 else OwnSteps(more[1..], k) + if more[0] == (k, Advance) then 1 else 0
  }

  predicate IdleAt(n: nat, run: Run, k: nat) { k < |After(n, run).cpus| && After(n, run).cpus[k].pc == Idle }

  lemma StepAfter(n: nat, run: Run, i: nat, a: Action)
    ensures After(n, run + [(i, a)]) == Next(After(n, run), i, a)
  {
    assert (run + [(i, a)])[..|run|] == run;
  }

  ghost predicate ComesToRest(n: nat, run: Run, more: Run, k: nat) {
    exists p :: 0 <= p <= |more| && IdleAt(n, run + more[..p], k)
  }

  lemma RestsLater(n: nat, run: Run, more: Run, k: nat)
    requires more != [] && ComesToRest(n, run + [(more[0].0, more[0].1)], more[1..], k)
    ensures ComesToRest(n, run, more, k)
  {
    var r := run + [(more[0].0, more[0].1)];
    var p :| 0 <= p <= |more[1..]| && IdleAt(n, r + more[1..][..p], k);
    assert r + more[1..][..p] == run + more[..p + 1];
  }

  lemma {:induction false} RankRunsOut(n: nat, run: Run, more: Run, k: nat)
    requires k < n == |After(n, run).cpus| && Rank(After(n, run), k) <= OwnSteps(more, k)
    ensures ComesToRest(n, run, more, k)
    decreases |more|
  {
    var s := After(n, run);
    if s.cpus[k].pc == Idle {
      assert run + more[..0] == run;
    } else {
      RunInv(n, run);
      var (i, a) := more[0];
      StepAfter(n, run, i, a);
      NextRank(s, i, a, k);
      RankRunsOut(n, run + [(i, a)], more[1..], k);
      RestsLater(n, run, more, k);
    }
  }

  lemma NextRank(s: System, i: nat, a: Action, k: nat)
    requires Inv(s) && k < |s.cpus| && s.cpus[k].pc != Idle
    ensures var t := Next(s, i, a);
            |t.cpus| == |s.cpus| && Rank(t, k) + (if (i, a) == (k, Advance) then 1 else 0) <= Rank(s, k)
  {
    if Enabled(s, i, a) {
      if i != k { OtherRank(s, i, a, k); } else if a == Advance { OwnRank(s, k); }
    }
  }

  /** Wait-freedom: whatever the other CPUs do, an operation of CPU k is over after at most fifteen steps of its own and
      one for every callback that it may have to invoke. */
  lemma WaitFree(n: nat, run: Run, more: Run, k: nat)
    requires k < |After(n, run).cpus|
    requires var c := After(n, run).cpus[k]; 15 + |c.done| + |c.curr| <= OwnSteps(more, k)
    ensures ComesToRest(n, run, more, k)
  {
    SameCpus(n, run);
    RankBound(After(n, run), k);
    RankRunsOut(n, run, more, k);
  }

  // ----- what holds in every reachable state and what steps keep

  /** Callbacks to be invoked lie about only within an update. */
  predicate Drained(s: System, j: nat)
    requires j < |s.cpus|
  {
    s.cpus[j].done != [] ==> BehindCheck(s.cpus[j].pc)
  }

  ghost predicate AllDrained(s: System) { forall j: nat | j < |s.cpus| :: Drained(s, j) }

  ghost predicate Live(s: System) {
    Inv(s) && Carried(s) && AllDrained(s) && forall j: nat | j < |s.cpus| :: Asked(s, j)
  }

  lemma StepDrained(s: System, i: nat, a: Action)
    requires AllDrained(s)
    ensures AllDrained(Next(s, i, a))
  {
    var t := Next(s, i, a);
    forall j: nat | j < |t.cpus| ensures Drained(t, j) {
      if Enabled(s, i, a) && j != i { OthersWait(s, i, a, j); }
      assert Drained(s, j);
    }
  }

  lemma {:induction false} RunDrained(n: nat, run: Run)
    ensures AllDrained(After(n, run))
    decreases |run|
  {
    if run != [] {
      var m := |run| - 1;
      RunDrained(n, run[..m]);
      StepDrained(After(n, run[..m]), run[m].0, run[m].1);
    }
  }

  lemma Reachable(n: nat, run: Run)
    ensures Live(After(n, run)) && |After(n, run).cpus| == n
  {
    NothingHangs(n, run);
    RunInv(n, run);
    RunDrained(n, run);
  }

  /** How many callbacks CPU k has invoked after a step. */
  function Count(s: System, i: nat, a: Action, k: nat, c: nat): nat { if i == k && Invokes(s, i, a) then c + 1 else c }

  /** A property of the state and of the number of callbacks that CPU k has invoked. */
  type Property = (System, nat) -> bool

  ghost predicate Keeps(P: Property, k: nat) {
    forall s: System, i: nat, a: Action, c: nat | Live(s) && Enabled(s, i, a) && P(s, c) ::
      P(Do(s, i, a), Count(s, i, a, k, c))
  }

  ghost predicate At(n: nat, run: Run, k: nat, P: Property) { P(After(n, run), |Invoked(n, run, k)|) }

  lemma AlongStep(n: nat, run: Run, i: nat, a: Action, k: nat, P: Property)
    requires Keeps(P, k) && At(n, run, k, P)
    ensures At(n, run + [(i, a)], k, P)
  {
    Reachable(n, run);
    OneMore(n, run, i, a, k);
    var s, c := After(n, run), |Invoked(n, run, k)|;
    if Enabled(s, i, a) { assert P(Do(s, i, a), Count(s, i, a, k, c)); }
  }

  lemma {:induction false} Along(n: nat, run: Run, more: Run, k: nat, P: Property)
    requires Keeps(P, k) && At(n, run, k, P)
    ensures At(n, run + more, k, P)
    decreases |more|
  {
    if more == [] {
      assert run + more == run;
    } else {
      var m := |more| - 1;
      Along(n, run, more[..m], k, P);
      AlongStep(n, run + more[..m], more[m].0, more[m].1, k, P);
      assert run + more == run + more[..m] + [(more[m].0, more[m].1)];
    }
  }

  /** The batch number, and whether that batch is complete. */
  function Level(st: nat): nat { 2 * Batch(st) + if HasFlag(st, CMP) then 1 else 0 }

  lemma CompleteIsLevel(st: nat, b: nat)
    ensures Complete(st, b) <==> Level(st) > 2 * b
  {
    WordParts(st / 4, st % 4);
  }

  /** Batches only go forward, and a flag stays while its batch lasts. */
  lemma StepLevel(s: System, i: nat, a: Action)
    requires Inv(s) && Enabled(s, i, a)
    ensures var t := Do(s, i, a);
            && |t.cpus| == |s.cpus| && Level(t.state) >= Level(s.state) && Batch(t.state) >= Batch(s.state)
            && (HasFlag(s.state, PND) && Batch(t.state) == Batch(s.state) ==> HasFlag(t.state, PND))
  {
    assert CpuOk(s, i);
    var c := s.cpus[i];
    if a == Advance && c.pc.Swap? && s.state == c.pc.v { FlagSet(s.state, c.pc.f); }
    if a == Advance && c.pc.Store? { Carry(s.state); }
  }

  // ----- rounds

  /** What happens until CPU k begins an update, until it has returned from it, and until it has returned from a quiet
      call, which it makes if it owes one. */
  datatype Visit = Visit(before: Run, update: Run, quiet: Run)

  function UpdateOf(k: nat, v: Visit): Run { v.before + [(k, Update)] + v.update }

  function StepsOf(k: nat, v: Visit): Run { UpdateOf(k, v) + [(k, QuietBegin)] + v.quiet }

  predicate IsVisit(n: nat, run: Run, k: nat, v: Visit) {
    IdleAt(n, run + v.before, k) && IdleAt(n, run + UpdateOf(k, v), k) && IdleAt(n, run + StepsOf(k, v), k)
  }

  ghost predicate Visited(n: nat, run: Run, more: Run, k: nat) {
    exists v :: StepsOf(k, v) <= more && IsVisit(n, run, k, v)
  }

  /** In any order and interleaving, every CPU makes a whole update and then a whole quiet call. */
  ghost predicate Round(n: nat, run: Run, more: Run) { forall k: nat | k < n :: Visited(n, run, more, k) }

  /** Where CPU j is idle, P turns into Q. */
  ghost predicate Yields(j: nat, P: Property, Q: Property) {
    forall s: System, c: nat | Live(s) && P(s, c) && j < |s.cpus| && s.cpus[j].pc == Idle :: Q(s, c)
  }

  /** Where CPU k is idle and begins an update. */
  ghost predicate Begins(k: nat, P: Property, Q: Property) {
    forall s: System, c: nat | Live(s) && P(s, c) && k < |s.cpus| && s.cpus[k].pc == Idle :: Q(Do(s, k, Update), c)
  }

  lemma AtIdle(n: nat, run: Run, k: nat, j: nat, P: Property, Q: Property)
    requires IdleAt(n, run, j) && Yields(j, P, Q) && At(n, run, k, P)
    ensures At(n, run, k, Q)
  {
    Reachable(n, run);
  }

  lemma PassIdle(n: nat, run: Run, pre: Run, more: Run, k: nat, j: nat, P: Property, Q: Property)
    requires pre <= more && IdleAt(n, run + pre, j)
    requires Keeps(P, k) && Keeps(Q, k) && Yields(j, P, Q) && At(n, run, k, P)
    ensures At(n, run + more, k, Q)
  {
    Along(n, run, pre, k, P);
    AtIdle(n, run + pre, k, j, P, Q);
    Along(n, run + pre, more[|pre|..], k, Q);
    assert run + pre + more[|pre|..] == run + more;
  }

  lemma BeginUpdate(n: nat, run: Run, k: nat, P: Property, Q: Property)
    requires IdleAt(n, run, k) && At(n, run, k, P) && Begins(k, P, Q)
    ensures At(n, run + [(k, Update)], k, Q)
  {
    Reachable(n, run);
    OneMore(n, run, k, Update, k);
  }

  /** What remains of a round when CPU k has begun its update. */
  function RestOf(more: Run, k: nat, v: Visit): Run
    requires StepsOf(k, v) <= more
  {
    more[|v.before| + 1..]
  }

  lemma VisitParts(run: Run, more: Run, k: nat, v: Visit)
    requires StepsOf(k, v) <= more
    ensures var r := run + v.before + [(k, Update)];
            && r + v.update == run + UpdateOf(k, v) && r + RestOf(more, k, v) == run + more
            && v.before <= more && v.update <= RestOf(more, k, v)
  {
    var w := StepsOf(k, v);
    assert w[..|v.before|] == v.before && w[|v.before|] == (k, Update);
    assert w[|v.before| + 1..|v.before| + 1 + |v.update|] == v.update;
  }

  /** CPU j comes to be idle within a round. */
  lemma RoundIdle(n: nat, run: Run, more: Run, k: nat, j: nat, P: Property, Q: Property)
    requires j < n && Round(n, run, more)
    requires Keeps(P, k) && Keeps(Q, k) && Yields(j, P, Q) && At(n, run, k, P)
    ensures At(n, run + more, k, Q)
  {
    assert Visited(n, run, more, j);
    var v :| StepsOf(j, v) <= more && IsVisit(n, run, j, v);
    VisitParts(run, more, j, v);
    PassIdle(n, run, v.before, more, k, j, P, Q);
  }

  /** CPU k makes a whole update within a round. */
  lemma RoundUpdate(n: nat, run: Run, more: Run, k: nat, P: Property, D: Property, Q: Property)
    requires k < n && Round(n, run, more) && Keeps(P, k) && Keeps(D, k) && Keeps(Q, k)
    requires Begins(k, P, D) && Yields(k, D, Q) && At(n, run, k, P)
    ensures At(n, run + more, k, Q)
  {
    assert Visited(n, run, more, k);
    var v :| StepsOf(k, v) <= more && IsVisit(n, run, k, v);
    VisitParts(run, more, k, v);
    Along(n, run, v.before, k, P);
    BeginUpdate(n, run + v.before, k, P, D);
    PassIdle(n, run + v.before + [(k, Update)], v.update, RestOf(more, k, v), k, k, D, Q);
  }

  // ----- a round pays every debt

  predicate Noticed(s: System, k: nat, b: nat) {
    && k < |s.cpus| && Batch(s.state) >= b
    && (Batch(s.state) > b || s.cpus[k].pc == Refresh || s.cpus[k].lBatch >= b)
  }

  predicate Settling(s: System, k: nat, b: nat) {
    && k < |s.cpus| && Batch(s.state) >= b
    && (Batch(s.state) > b || (s.cpus[k].lBatch >= b && !s.cpus[k].hazard))
  }

  predicate Paid(s: System, k: nat, b: nat) {
    k < |s.cpus| && Batch(s.state) >= b && (Batch(s.state) > b || !Owes(s, k))
  }

  lemma NoticedKept(k: nat, b: nat)
    ensures Keeps((s, c) => Noticed(s, k, b), k)
  {
    forall s: System, i: nat, a: Action | Live(s) && Enabled(s, i, a) && Noticed(s, k, b)
      ensures Noticed(Do(s, i, a), k, b)
    {
      StepLevel(s, i, a);
      if i != k { OthersWait(s, i, a, k); } else { assert CpuOk(s, k); }
    }
  }

  lemma SettlingKept(k: nat, b: nat)
    ensures Keeps((s, c) => Settling(s, k, b), k)
  {
    forall s: System, i: nat, a: Action | Live(s) && Enabled(s, i, a) && Settling(s, k, b)
      ensures Settling(Do(s, i, a), k, b)
    {
      StepLevel(s, i, a);
      if i != k { OthersWait(s, i, a, k); } else { assert CpuOk(s, k); }
    }
  }

  lemma PaidKept(k: nat, b: nat)
    ensures Keeps((s, c) => Paid(s, k, b), k)
  {
    forall s: System, i: nat, a: Action | Live(s) && Enabled(s, i, a) && Paid(s, k, b)
      ensures Paid(Do(s, i, a), k, b)
    {
      StepLevel(s, i, a);
      if i != k { OthersWait(s, i, a, k); } else { assert CpuOk(s, k); }
    }
  }

  predicate Reached(s: System, l: nat) { Level(s.state) >= l }

  lemma ReachedKept(l: nat, k: nat)
    ensures Keeps((s, c) => Reached(s, l), k)
  {
    forall s: System, i: nat, a: Action | Live(s) && Enabled(s, i, a) && Reached(s, l)
      ensures Reached(Do(s, i, a), l)
    {
      StepLevel(s, i, a);
    }
  }

  lemma ReachedAlong(n: nat, run: Run, more: Run, l: nat)
    requires Reached(After(n, run), l)
    ensures Reached(After(n, run + more), l)
  {
    ReachedKept(l, 0);
    Along(n, run, more, 0, (s, c) => Reached(s, l));
  }

  lemma NoticedAlong(n: nat, run: Run, more: Run, k: nat, b: nat)
    requires Noticed(After(n, run), k, b)
    ensures Noticed(After(n, run + more), k, b)
  {
    NoticedKept(k, b);
    Along(n, run, more, k, (s, c) => Noticed(s, k, b));
  }

  lemma SettlingAlong(n: nat, run: Run, more: Run, k: nat, b: nat)
    requires Settling(After(n, run), k, b)
    ensures Settling(After(n, run + more), k, b)
  {
    SettlingKept(k, b);
    Along(n, run, more, k, (s, c) => Settling(s, k, b));
  }

  lemma PaidAlong(n: nat, run: Run, more: Run, k: nat, b: nat)
    requires Paid(After(n, run), k, b)
    ensures Paid(After(n, run + more), k, b)
  {
    PaidKept(k, b);
    Along(n, run, more, k, (s, c) => Paid(s, k, b));
  }

  lemma UpdateNotices(n: nat, run: Run, k: nat, b: nat)
    requires IdleAt(n, run, k) && Reached(After(n, run), 2 * b)
    ensures Noticed(After(n, run + [(k, Update)]), k, b)
  {
    StepAfter(n, run, k, Update);
    BatchOf(After(n, run).state, b);
  }

  lemma BatchOf(st: nat, b: nat)
    ensures Level(st) >= 2 * b <==> Batch(st) >= b
  {
  }

  lemma QuietSettles(n: nat, run: Run, k: nat, b: nat)
    requires IdleAt(n, run, k) && Noticed(After(n, run), k, b)
    ensures Settling(After(n, run + [(k, QuietBegin)]), k, b)
  {
    StepAfter(n, run, k, QuietBegin);
  }

  lemma IdlePays(n: nat, run: Run, k: nat, b: nat)
    requires IdleAt(n, run, k) && Settling(After(n, run), k, b)
    ensures Paid(After(n, run), k, b)
  {
    RunInv(n, run);
    assert CpuOk(After(n, run), k);
  }

  /** The parts of a visit one after the other. */
  lemma VisitEnds(run: Run, k: nat, v: Visit, more: Run)
    requires StepsOf(k, v) <= more
    ensures run + v.before + [(k, Update)] + v.update == run + UpdateOf(k, v)
    ensures run + UpdateOf(k, v) + [(k, QuietBegin)] + v.quiet == run + StepsOf(k, v)
    ensures run + StepsOf(k, v) + more[|StepsOf(k, v)|..] == run + more
  {
  }

  lemma RoundPays(n: nat, run: Run, more: Run, k: nat, b: nat)
    requires k < n && Round(n, run, more) && Reached(After(n, run), 2 * b)
    ensures Paid(After(n, run + more), k, b)
  {
    assert Visited(n, run, more, k);
    var v :| StepsOf(k, v) <= more && IsVisit(n, run, k, v);
    VisitEnds(run, k, v, more);
    ReachedAlong(n, run, v.before, 2 * b);
    UpdateNotices(n, run + v.before, k, b);
    NoticedAlong(n, run + v.before + [(k, Update)], v.update, k, b);
    QuietSettles(n, run + UpdateOf(k, v), k, b);
    SettlingAlong(n, run + UpdateOf(k, v) + [(k, QuietBegin)], v.quiet, k, b);
    IdlePays(n, run + StepsOf(k, v), k, b);
    PaidAlong(n, run + StepsOf(k, v), more[|StepsOf(k, v)|..], k, b);
  }

  // ----- two rounds complete a batch

  predicate Closing(s: System, i: nat, b: nat) {
    i < |s.cpus| && (Level(s.state) > 2 * b || (Completing(s.cpus[i]) && Batch(s.state) == b))
  }

  lemma ClosingStep(s: System, i: nat, a: Action, k: nat, b: nat)
    requires Inv(s) && Enabled(s, i, a) && Closing(s, k, b)
    ensures Closing(Do(s, i, a), k, b)
  {
    StepLevel(s, i, a);
    assert CpuOk(s, k);
    if i != k {
      OthersWait(s, i, a, k);
    } else if s.cpus[k].pc.Swap? && s.state == s.cpus[k].pc.v {
      FlagSet(s.state, s.cpus[k].pc.f);
    }
  }

  lemma ClosingKept(i: nat, b: nat)
    ensures Keeps((s, c) => Closing(s, i, b), i)
  {
    forall s: System, j: nat, a: Action | Live(s) && Enabled(s, j, a) && Closing(s, i, b)
      ensures Closing(Do(s, j, a), i, b)
    {
      ClosingStep(s, j, a, i, b);
    }
  }

  /** A batch that everybody has paid for and that is not complete has somebody who completes it. */
  lemma SomeoneCloses(s: System, b: nat) returns (i: nat)
    requires Live(s) && |s.cpus| > 0 && forall k: nat | k < |s.cpus| :: Paid(s, k, b)
    ensures Closing(s, i, b)
  {
    i := 0;
    assert Paid(s, 0, b);
    if Level(s.state) <= 2 * b {
      forall k: nat | k < |s.cpus| ensures !Owes(s, k) { assert Paid(s, k, b); }
      assert Owing(s) == {};
      i :| 0 <= i < |s.cpus| && Completing(s.cpus[i]);
    }
  }

  /** Within two rounds the batch that runs at the beginning is complete. */
  lemma TwoRounds(n: nat, run: Run, first: Run, second: Run, b: nat)
    requires n > 0 && Reached(After(n, run), 2 * b)
    requires Round(n, run, first) && Round(n, run + first, second)
    ensures Reached(After(n, run + first + second), 2 * b + 1)
  {
    var r := run + first;
    forall k: nat | k < n ensures Paid(After(n, r), k, b) { RoundPays(n, run, first, k, b); }
    Reachable(n, r);
    var i := SomeoneCloses(After(n, r), b);
    ClosingKept(i, b);
    ReachedKept(2 * b + 1, i);
    RoundIdle(n, r, second, i, i, (s, c) => Closing(s, i, b), (s, c) => Reached(s, 2 * b + 1));
  }

  // ----- two rounds start a batch that is waited for

  /** Batch b runs, or CPU j waits for it. */
  predicate Wanted(s: System, j: nat, b: nat) {
    j < |s.cpus| && (Batch(s.state) >= b || (s.cpus[j].curr != [] && s.cpus[j].cBatch == b))
  }

  /** Batch b runs, or it is asked for behind a batch that is complete. */
  predicate Pending(s: System, b: nat) {
    Batch(s.state) >= b || (Batch(s.state) + 1 == b && HasFlag(s.state, CMP) && HasFlag(s.state, PND))
  }

  /** Batch b runs, or CPU i is about to start it. */
  predicate Opening(s: System, i: nat, b: nat) {
    i < |s.cpus| && (Batch(s.state) >= b || (Batch(s.state) + 1 == b && Advancing(s.cpus[i])))
  }

  lemma WantedStep(s: System, i: nat, a: Action, j: nat, b: nat)
    requires Inv(s) && Enabled(s, i, a) && Wanted(s, j, b)
    ensures Wanted(Do(s, i, a), j, b)
  {
    StepLevel(s, i, a);
    CompleteIsLevel(s.state, b);
    if i != j { OthersWait(s, i, a, j); }
  }

  lemma PendingStep(s: System, i: nat, a: Action, b: nat)
    requires Inv(s) && Enabled(s, i, a) && Pending(s, b)
    ensures Pending(Do(s, i, a), b)
  {
    StepLevel(s, i, a);
  }

  lemma OpeningStep(s: System, i: nat, a: Action, k: nat, b: nat)
    requires Inv(s) && Enabled(s, i, a) && Opening(s, k, b)
    ensures Opening(Do(s, i, a), k, b)
  {
    StepLevel(s, i, a);
    assert CpuOk(s, k);
    if i != k {
      OthersWait(s, i, a, k);
    } else if s.cpus[k].pc.Store? {
      Carry(s.state);
    }
  }

  predicate AskedFor(s: System, j: nat, b: nat) { Wanted(s, j, b) && Level(s.state) + 1 >= 2 * b }

  lemma OpeningKept(k: nat, b: nat)
    ensures Keeps((s, c) => AskedFor(s, k, b), k) && Keeps((s, c) => Pending(s, b), k)
    ensures Keeps((s, c) => Opening(s, k, b), k)
  {
    forall s: System, i: nat, a: Action | Live(s) && Enabled(s, i, a)
      ensures AskedFor(s, k, b) ==> AskedFor(Do(s, i, a), k, b)
      ensures Pending(s, b) ==> Pending(Do(s, i, a), b)
      ensures Opening(s, k, b) ==> Opening(Do(s, i, a), k, b)
    {
      StepLevel(s, i, a);
      if Wanted(s, k, b) { WantedStep(s, i, a, k, b); }
      if Pending(s, b) { PendingStep(s, i, a, b); }
      if Opening(s, k, b) { OpeningStep(s, i, a, k, b); }
    }
  }

  lemma SomeoneOpens(s: System, b: nat) returns (i: nat)
    requires Live(s) && |s.cpus| > 0 && Pending(s, b)
    ensures Opening(s, i, b)
  {
    i := 0;
    if Batch(s.state) < b { i :| 0 <= i < |s.cpus| && Advancing(s.cpus[i]); }
  }

  lemma IdlePends(s: System, j: nat, b: nat)
    requires Live(s) && AskedFor(s, j, b) && s.cpus[j].pc == Idle
    ensures Pending(s, b)
  {
    assert Asked(s, j);
  }

  /** Within two rounds a batch that is waited for runs, if the one before it is complete at the beginning. */
  lemma TwoMoreRounds(n: nat, run: Run, first: Run, second: Run, j: nat, b: nat)
    requires j < n && AskedFor(After(n, run), j, b) && Round(n, run, first) && Round(n, run + first, second)
    ensures Reached(After(n, run + first + second), 2 * b)
  {
    OpeningKept(j, b);
    forall s: System | Live(s) && AskedFor(s, j, b) && s.cpus[j].pc == Idle ensures Pending(s, b) {
      IdlePends(s, j, b);
    }
    RoundIdle(n, run, first, j, j, (s, c) => AskedFor(s, j, b), (s, c) => Pending(s, b));
    Reachable(n, run + first);
    var i := SomeoneOpens(After(n, run + first), b);
    OpeningKept(i, b);
    ReachedKept(2 * b, i);
    RoundIdle(n, run + first, second, i, i, (s, c) => Opening(s, i, b), (s, c) => Reached(s, 2 * b));
  }

  // ----- any number of rounds

  /** The run behind the first i rounds. */
  function Upto(run: Run, rounds: seq<Run>, i: nat): Run
    requires i <= |rounds|
  {
    if i == 0 then run else Upto(run, rounds, i - 1) + rounds[i - 1]
  }

  ghost predicate Rounds(n: nat, run: Run, rounds: seq<Run>) {
    forall i: nat | i < |rounds| :: Round(n, Upto(run, rounds, i), rounds[i])
  }

  lemma {:induction false} AlongRounds(n: nat, run: Run, rounds: seq<Run>, i: nat, j: nat, k: nat, P: Property)
    requires i <= j <= |rounds| && Keeps(P, k) && At(n, Upto(run, rounds, i), k, P)
    ensures At(n, Upto(run, rounds, j), k, P)
    decreases j - i
  {
    if i < j {
      AlongRounds(n, run, rounds, i, j - 1, k, P);
      Along(n, Upto(run, rounds, j - 1), rounds[j - 1], k, P);
    }
  }

  lemma TwoFrom(n: nat, run: Run, rounds: seq<Run>, i: nat, b: nat)
    requires n > 0 && Rounds(n, run, rounds) && i + 2 <= |rounds| && Reached(After(n, Upto(run, rounds, i)), 2 * b)
    ensures Reached(After(n, Upto(run, rounds, i + 2)), 2 * b + 1)
  {
    assert Upto(run, rounds, i + 1) == Upto(run, rounds, i) + rounds[i];
    assert Upto(run, rounds, i + 2) == Upto(run, rounds, i + 1) + rounds[i + 1];
    TwoRounds(n, Upto(run, rounds, i), rounds[i], rounds[i + 1], b);
  }

  lemma TwoMoreFrom(n: nat, run: Run, rounds: seq<Run>, i: nat, j: nat, b: nat)
    requires j < n && Rounds(n, run, rounds) && i + 2 <= |rounds| && AskedFor(After(n, Upto(run, rounds, i)), j, b)
    ensures Reached(After(n, Upto(run, rounds, i + 2)), 2 * b)
  {
    assert Upto(run, rounds, i + 1) == Upto(run, rounds, i) + rounds[i];
    assert Upto(run, rounds, i + 2) == Upto(run, rounds, i + 1) + rounds[i + 1];
    TwoMoreRounds(n, Upto(run, rounds, i), rounds[i], rounds[i + 1], j, b);
  }

  lemma WantedFrom(n: nat, run: Run, rounds: seq<Run>, i: nat, m: nat, j: nat, b: nat)
    requires i <= m <= |rounds| && Wanted(After(n, Upto(run, rounds, i)), j, b)
    ensures Wanted(After(n, Upto(run, rounds, m)), j, b)
  {
    forall s: System, i: nat, a: Action | Live(s) && Enabled(s, i, a) && Wanted(s, j, b)
      ensures Wanted(Do(s, i, a), j, b)
    {
      WantedStep(s, i, a, j, b);
    }
    AlongRounds(n, run, rounds, i, m, j, (s, c) => Wanted(s, j, b));
  }

  lemma ReachedFrom(n: nat, run: Run, rounds: seq<Run>, i: nat, m: nat, l: nat)
    requires i <= m <= |rounds| && Reached(After(n, Upto(run, rounds, i)), l)
    ensures Reached(After(n, Upto(run, rounds, m)), l)
  {
    ReachedKept(l, 0);
    AlongRounds(n, run, rounds, i, m, 0, (s, c) => Reached(s, l));
  }

  /** A batch that is waited for is complete within six rounds. */
  lemma SixRounds(n: nat, run: Run, rounds: seq<Run>, i: nat, j: nat, b: nat)
    requires j < n && Rounds(n, run, rounds) && i + 6 <= |rounds|
    requires |After(n, Upto(run, rounds, i)).cpus| == n
    requires After(n, Upto(run, rounds, i)).cpus[j].curr != [] && After(n, Upto(run, rounds, i)).cpus[j].cBatch == b
    ensures Reached(After(n, Upto(run, rounds, i + 6)), 2 * b + 1)
  {
    var s := After(n, Upto(run, rounds, i));
    RunInv(n, Upto(run, rounds, i));
    assert CpuOk(s, j);
    if b <= Batch(s.state) {
      TwoFrom(n, run, rounds, i, b);
      ReachedFrom(n, run, rounds, i + 2, i + 6, 2 * b + 1);
    } else {
      TwoFrom(n, run, rounds, i, b - 1);
      WantedFrom(n, run, rounds, i, i + 2, j, b);
      TwoMoreFrom(n, run, rounds, i + 2, j, b);
      TwoFrom(n, run, rounds, i + 4, b);
    }
  }

  // ----- what waits for a batch is invoked

  /** The first `due` callbacks are invoked, about to be, or wait for batch b. */
  predicate Held(s: System, k: nat, count: nat, due: nat, b: nat) {
    && k < |s.cpus|
    && var c := s.cpus[k];
       due <= count + |c.done| || (c.curr != [] && c.cBatch == b && due <= count + |c.done| + |c.curr|)
  }

  predicate HeldOver(s: System, k: nat, count: nat, due: nat, b: nat) {
    Held(s, k, count, due, b) && Reached(s, 2 * b + 1)
  }

  predicate StillDue(s: System, k: nat, count: nat, due: nat) { k < |s.cpus| && Due(s, k, count, due) }

  lemma HeldStep(s: System, i: nat, a: Action, k: nat, count: nat, due: nat, b: nat)
    requires Inv(s) && Enabled(s, i, a) && Held(s, k, count, due, b)
    ensures Held(Do(s, i, a), k, Count(s, i, a, k, count), due, b)
  {
    StepSize(s, i, a);
    if i != k { OthersWait(s, i, a, k); }
  }

  lemma HeldKept(k: nat, due: nat, b: nat)
    ensures Keeps((s, c: nat) => Held(s, k, c, due, b), k) && Keeps((s, c: nat) => HeldOver(s, k, c, due, b), k)
  {
    forall s: System, i: nat, a: Action, c: nat | Live(s) && Enabled(s, i, a) && Held(s, k, c, due, b)
      ensures Held(Do(s, i, a), k, Count(s, i, a, k, c), due, b)
      ensures Level(Do(s, i, a).state) >= Level(s.state)
    {
      HeldStep(s, i, a, k, c, due, b);
      StepLevel(s, i, a);
    }
  }

  lemma StillDueKept(k: nat, due: nat)
    ensures Keeps((s, c: nat) => StillDue(s, k, c, due), k) && Keeps((s, c: nat) => due <= c, k)
  {
    forall s: System, i: nat, a: Action, c: nat | Live(s) && Enabled(s, i, a) && StillDue(s, k, c, due)
      ensures StillDue(Do(s, i, a), k, Count(s, i, a, k, c), due)
    {
      DueKept(s, i, a, k, c, due);
    }
  }

  lemma HeldBegins(s: System, k: nat, c: nat, due: nat, b: nat)
    requires Live(s) && HeldOver(s, k, c, due, b) && s.cpus[k].pc == Idle
    ensures StillDue(Do(s, k, Update), k, c, due)
  {
    assert Drained(s, k);
    CompleteIsLevel(s.state, b);
  }

  lemma LastRound(n: nat, run: Run, more: Run, k: nat, due: nat, b: nat)
    requires k < n && Round(n, run, more) && HeldOver(After(n, run), k, |Invoked(n, run, k)|, due, b)
    ensures due <= |Invoked(n, run + more, k)|
  {
    HeldKept(k, due, b);
    StillDueKept(k, due);
    forall s: System, c: nat | Live(s) && HeldOver(s, k, c, due, b) && s.cpus[k].pc == Idle
      ensures StillDue(Do(s, k, Update), k, c, due)
    {
      HeldBegins(s, k, c, due, b);
    }
    RoundUpdate(n, run, more, k, (s, c: nat) => HeldOver(s, k, c, due, b), (s, c: nat) => StillDue(s, k, c, due),
                (s, c: nat) => due <= c);
    assert At(n, run + more, k, (s, c: nat) => due <= c);
  }

  lemma FirstRound(n: nat, run: Run, more: Run, k: nat, due: nat)
    requires k < n && Round(n, run, more) && |After(n, run).cpus| == n
    requires due <= |Invoked(n, run, k)| + |After(n, run).cpus[k].done|
    ensures due <= |Invoked(n, run + more, k)|
  {
    Reachable(n, run);
    assert Drained(After(n, run), k);
    StillDueKept(k, due);
    RoundIdle(n, run, more, k, k, (s, c: nat) => StillDue(s, k, c, due), (s, c: nat) => due <= c);
    assert At(n, run + more, k, (s, c: nat) => due <= c);
  }

  lemma InvokedFrom(n: nat, run: Run, rounds: seq<Run>, i: nat, m: nat, k: nat, due: nat)
    requires i <= m <= |rounds| && due <= |Invoked(n, Upto(run, rounds, i), k)|
    ensures due <= |Invoked(n, Upto(run, rounds, m), k)|
  {
    StillDueKept(k, due);
    AlongRounds(n, run, rounds, i, m, k, (s, c: nat) => due <= c);
    assert At(n, Upto(run, rounds, m), k, (s, c: nat) => due <= c);
  }

  lemma HeldFrom(n: nat, run: Run, rounds: seq<Run>, i: nat, m: nat, k: nat, due: nat, b: nat)
    requires i <= m <= |rounds|
    requires var r := Upto(run, rounds, i); Held(After(n, r), k, |Invoked(n, r, k)|, due, b)
    ensures var r := Upto(run, rounds, m); Held(After(n, r), k, |Invoked(n, r, k)|, due, b)
  {
    HeldKept(k, due, b);
    AlongRounds(n, run, rounds, i, m, k, (s, c: nat) => Held(s, k, c, due, b));
  }

  lemma UptoNext(run: Run, rounds: seq<Run>, i: nat)
    requires i < |rounds|
    ensures Upto(run, rounds, i + 1) == Upto(run, rounds, i) + rounds[i]
  {
  }

  /** Callbacks that wait for a batch are invoked within seven rounds. */
  lemma SevenRounds(n: nat, run: Run, rounds: seq<Run>, i: nat, k: nat, due: nat)
    requires k < n && Rounds(n, run, rounds) && i + 7 <= |rounds|
    requires var r := Upto(run, rounds, i); Promoted(After(n, r), k, |Invoked(n, r, k)|, due)
    ensures due <= |Invoked(n, Upto(run, rounds, i + 7), k)|
  {
    var r, q := Upto(run, rounds, i), Upto(run, rounds, i + 6);
    SameCpus(n, r);
    var c := After(n, r).cpus[k];
    if c.curr == [] {
      UptoNext(run, rounds, i);
      FirstRound(n, r, rounds[i], k, due);
      InvokedFrom(n, run, rounds, i + 1, i + 7, k, due);
    } else {
      SixRounds(n, run, rounds, i, k, c.cBatch);
      HeldFrom(n, run, rounds, i, i + 6, k, due, c.cBatch);
      UptoNext(run, rounds, i + 6);
      LastRound(n, q, rounds[i + 6], k, due, c.cBatch);
    }
  }

  // ----- what is called comes to wait for a batch

  /** The first `all` callbacks are invoked, about to be, or wait for a batch. */
  predicate Promoted(s: System, k: nat, count: nat, all: nat) {
    k < |s.cpus| && all <= count + |s.cpus[k].done| + |s.cpus[k].curr|
  }

  /** They are, or they are called, and nothing but, possibly, batch b is waited for. */
  predicate Calls(s: System, k: nat, count: nat, all: nat, busy: bool, b: nat) {
    && k < |s.cpus|
    && var c := s.cpus[k];
       || Promoted(s, k, count, all)
       || (all <= count + |c.done| + |c.curr| + |c.next| && (c.curr == [] || (busy && c.cBatch == b)))
  }

  predicate CallsOver(s: System, k: nat, count: nat, all: nat, busy: bool, b: nat) {
    Calls(s, k, count, all, busy, b) && (busy ==> Reached(s, 2 * b + 1))
  }

  predicate StillMoves(s: System, k: nat, count: nat, all: nat) { k < |s.cpus| && Moves(s, k, count, all) }

  lemma CallsStep(s: System, i: nat, a: Action, k: nat, count: nat, all: nat, busy: bool, b: nat)
    requires Inv(s) && Enabled(s, i, a) && Calls(s, k, count, all, busy, b)
    ensures Calls(Do(s, i, a), k, Count(s, i, a, k, count), all, busy, b)
  {
    StepSize(s, i, a);
    if i != k { OthersWait(s, i, a, k); }
  }

  lemma PromotedStep(s: System, i: nat, a: Action, k: nat, count: nat, all: nat)
    requires Inv(s) && Enabled(s, i, a) && Promoted(s, k, count, all)
    ensures Promoted(Do(s, i, a), k, Count(s, i, a, k, count), all)
  {
    StepSize(s, i, a);
    if i != k { OthersWait(s, i, a, k); }
  }

  lemma CallsKept(k: nat, all: nat, busy: bool, b: nat)
    ensures Keeps((s, c: nat) => Calls(s, k, c, all, busy, b), k)
    ensures Keeps((s, c: nat) => CallsOver(s, k, c, all, busy, b), k)
  {
    forall s: System, i: nat, a: Action, c: nat | Live(s) && Enabled(s, i, a) && Calls(s, k, c, all, busy, b)
      ensures Calls(Do(s, i, a), k, Count(s, i, a, k, c), all, busy, b)
      ensures Level(Do(s, i, a).state) >= Level(s.state)
    {
      CallsStep(s, i, a, k, c, all, busy, b);
      StepLevel(s, i, a);
    }
  }

  lemma MovesOn(k: nat, all: nat)
    ensures Keeps((s, c: nat) => StillMoves(s, k, c, all), k) && Keeps((s, c: nat) => Promoted(s, k, c, all), k)
  {
    forall s: System, i: nat, a: Action, c: nat | Live(s) && Enabled(s, i, a)
      ensures StillMoves(s, k, c, all) ==> StillMoves(Do(s, i, a), k, Count(s, i, a, k, c), all)
      ensures Promoted(s, k, c, all) ==> Promoted(Do(s, i, a), k, Count(s, i, a, k, c), all)
    {
      if StillMoves(s, k, c, all) { MovesKept(s, i, a, k, c, all); }
      if Promoted(s, k, c, all) { PromotedStep(s, i, a, k, c, all); }
    }
  }

  lemma CallsBegin(s: System, k: nat, c: nat, all: nat, busy: bool, b: nat)
    requires Live(s) && CallsOver(s, k, c, all, busy, b) && s.cpus[k].pc == Idle
    ensures StillMoves(Do(s, k, Update), k, c, all)
  {
    CompleteIsLevel(s.state, b);
  }

  lemma PromotingRound(n: nat, run: Run, more: Run, k: nat, all: nat, busy: bool, b: nat)
    requires k < n && Round(n, run, more) && CallsOver(After(n, run), k, |Invoked(n, run, k)|, all, busy, b)
    ensures Promoted(After(n, run + more), k, |Invoked(n, run + more, k)|, all)
  {
    CallsKept(k, all, busy, b);
    MovesOn(k, all);
    forall s: System, c: nat | Live(s) && CallsOver(s, k, c, all, busy, b) && s.cpus[k].pc == Idle
      ensures StillMoves(Do(s, k, Update), k, c, all)
    {
      CallsBegin(s, k, c, all, busy, b);
    }
    RoundUpdate(n, run, more, k, (s, c: nat) => CallsOver(s, k, c, all, busy, b),
                (s, c: nat) => StillMoves(s, k, c, all), (s, c: nat) => Promoted(s, k, c, all));
  }

  lemma CallsFrom(n: nat, run: Run, rounds: seq<Run>, i: nat, m: nat, k: nat, all: nat, busy: bool, b: nat)
    requires i <= m <= |rounds|
    requires var r := Upto(run, rounds, i); Calls(After(n, r), k, |Invoked(n, r, k)|, all, busy, b)
    ensures var r := Upto(run, rounds, m); Calls(After(n, r), k, |Invoked(n, r, k)|, all, busy, b)
  {
    CallsKept(k, all, busy, b);
    AlongRounds(n, run, rounds, i, m, k, (s, c: nat) => Calls(s, k, c, all, busy, b));
  }

  /** Callbacks that are called wait for a batch, or are invoked, within seven rounds. */
  lemma PromotedInSeven(n: nat, run: Run, rounds: seq<Run>, k: nat)
    requires k < n && Rounds(n, run, rounds) && 7 <= |rounds|
    ensures var r := Upto(run, rounds, 7); Promoted(After(n, r), k, |Invoked(n, r, k)|, |Called(n, run, k)|)
  {
    NoneLost(n, run, k);
    var c, all := After(n, run).cpus[k], |Called(n, run, k)|;
    var busy, b := c.curr != [], c.cBatch;
    assert Upto(run, rounds, 0) == run;
    CallsFrom(n, run, rounds, 0, 6, k, all, busy, b);
    if busy { SixRounds(n, run, rounds, 0, k, b); }
    UptoNext(run, rounds, 6);
    PromotingRound(n, Upto(run, rounds, 6), rounds[6], k, all, busy, b);
  }

  lemma PromotedBy(n: nat, run: Run, rounds: seq<Run>, m: nat, k: nat)
    requires k < n && Rounds(n, run, rounds) && 7 <= m <= |rounds|
    ensures var r := Upto(run, rounds, m); Promoted(After(n, r), k, |Invoked(n, r, k)|, |Called(n, run, k)|)
  {
    var all := |Called(n, run, k)|;
    PromotedInSeven(n, run, rounds, k);
    MovesOn(k, all);
    AlongRounds(n, run, rounds, 7, m, k, (s, c: nat) => Promoted(s, k, c, all));
  }

  lemma {:induction false} UptoExtends(run: Run, rounds: seq<Run>, i: nat)
    requires i <= |rounds|
    ensures run <= Upto(run, rounds, i)
  {
    if i > 0 { UptoExtends(run, rounds, i - 1); }
  }

  lemma FirstCalled(n: nat, run: Run, end: Run, k: nat)
    requires k < n && run <= end && |Called(n, run, k)| <= |Invoked(n, end, k)|
    ensures Called(n, run, k) <= Invoked(n, end, k)
  {
    assert end == run + end[|run|..];
    CalledGrows(n, run, end[|run|..], k);
    NoneLost(n, end, k);
  }

  lemma AsManyInvoked(n: nat, run: Run, rounds: seq<Run>, i: nat, k: nat)
    requires k < n && Rounds(n, run, rounds) && 7 <= i && i + 7 == |rounds|
    ensures |Called(n, run, k)| <= |Invoked(n, Upto(run, rounds, |rounds|), k)|
  {
    PromotedBy(n, run, rounds, i, k);
    SevenRounds(n, run, rounds, i, k, |Called(n, run, k)|);
  }

  /** Liveness: in every interleaving on any number of CPUs, a callback that has been passed to Rcu::call is invoked, in
      its turn, within fourteen rounds in which every CPU makes an update and a quiet call. */
  lemma EveryCallbackRuns(n: nat, run: Run, rounds: seq<Run>, k: nat)
    requires k < n && Rounds(n, run, rounds) && 14 <= |rounds|
    ensures Called(n, run, k) <= Invoked(n, Upto(run, rounds, |rounds|), k)
  {
    AsManyInvoked(n, run, rounds, |rounds| - 7, k);
    UptoExtends(run, rounds, |rounds|);
    FirstCalled(n, run, Upto(run, rounds, |rounds|), k);
  }

  // ----- there is always such a round

  function Alone(k: nat, m: nat): Run { if m == 0 then [] else [(k, Advance)] + Alone(k, m - 1) }

  lemma {:induction false} AloneSteps(k: nat, m: nat)
    ensures OwnSteps(Alone(k, m), k) == m
  {
    if m > 0 {
      AloneSteps(k, m - 1);
      assert Alone(k, m)[1..] == Alone(k, m - 1);
    }
  }

  lemma GoesOn(n: nat, run: Run, k: nat) returns (more: Run)
    requires k < n
    ensures IdleAt(n, run + more, k)
  {
    SameCpus(n, run);
    var m := Rank(After(n, run), k);
    AloneSteps(k, m);
    RankRunsOut(n, run, Alone(k, m), k);
    var p :| 0 <= p <= |Alone(k, m)| && IdleAt(n, run + Alone(k, m)[..p], k);
    more := Alone(k, m)[..p];
  }

  lemma VisitExists(n: nat, run: Run, first: Run, k: nat) returns (v: Visit)
    requires k < n
    ensures first <= StepsOf(k, v) && IsVisit(n, run, k, v)
  {
    var x := GoesOn(n, run + first, k);
    var before := first + x;
    assert run + first + x == run + before;
    var y := GoesOn(n, run + before + [(k, Update)], k);
    var z := GoesOn(n, run + before + [(k, Update)] + y + [(k, QuietBegin)], k);
    v := Visit(before, y, z);
    VisitEnds(run, k, v, StepsOf(k, v));
  }

  /** Whatever has happened, every CPU can make a whole update and a whole quiet call. */
  lemma RoundExists(n: nat, run: Run) returns (more: Run)
    ensures Round(n, run, more)
  {
    more := [];
    var k := 0;
    while k < n
      invariant k <= n && forall j: nat | j < k :: Visited(n, run, more, j)
    {
      var v := VisitExists(n, run, more, k);
      var longer := StepsOf(k, v);
      forall j: nat | j < k ensures Visited(n, run, longer, j) {
        assert Visited(n, run, more, j);
        var w :| StepsOf(j, w) <= more && IsVisit(n, run, j, w);
        assert StepsOf(j, w) <= longer;
      }
      assert Visited(n, run, longer, k);
      more := longer;
      k := k + 1;
    }
  }
}
